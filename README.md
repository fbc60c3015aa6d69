# pidcat's log classifier and process tracker, in Dafny

pidcat reads Android `logcat` output in the brief format. It shows only the
lines of the processes that belong to the packages named on the command line.
It recognises the ActivityManager lines that announce a process start or a
process end, keeps the set of tracked pids up to date, and prints each kept
line. A kept line is a tag column in a per-tag colour, a level badge and the
message, hard-wrapped to the terminal width.

This project models that per-line core of `pidcat.py`:

- `Packages` models the package split (catch-all packages and named
  processes) and `match_packages`.
- `Regex` and `Patterns` model the fixed regexes: LOG_LINE, the three
  process-start dialects, the three process-end dialects, BUG_LINE and
  BACKTRACE_LINE.
  - Each regex is a list of pattern elements.
  - `Regex.Match` is proved sound and complete against a declarative
    "split into pieces" relation.
  - A leading greedy `.*` is the last position where the rest matches. The
    lazy `.+?` of LOG_LINE's tag is the first such position.
- `Patterns` also models `parse_start_proc`. `Tracker` models `parse_death`
  twice: as written (`ParseDeathAsWritten`) and with PID_DEATH's groups read
  the right way round (`ParseDeath`).
- `Colors` models `allocate_color`.
  - The pure function `Allocated` states the behaviour.
  - The class `ColorAllocator` updates KNOWN_TAGS and LAST_USED in place, as
    the source does.
- `Layout` models `indent_wrap`, the tag column, the level badges and the two
  banners. Printed text is a list of segments, plain or coloured.
- `Tracker` models one pass of the main loop as a function of the tracker's
  state (tracked pids, app pid, last tag shown, colour table):
  - classification;
  - the start phase, then the end phase;
  - the DEBUG backtrace reassignment;
  - the four filters;
  - rendering.
  It also models the loop over the lines read and the seeding from `ps`.
  The end phase calls `LoopDeath`. The `asWritten` setting of `Config` picks
  the reading of parse_death it uses. With `asWritten` set, the loop is the
  program as written. Without it, the loop runs the corrected reading.
  Every loop contract holds for both readings. `DiedLineInLoop` shows where
  the two differ.
- `Session` runs the same loop imperatively on a class whose fields are the
  loop's variables. Each method is proved equal to the `Tracker` function it
  implements.

## Model

| member | source | states |
|---|---|---|
| Text.LStrip | pidcat.py:358-359 | the result is a suffix of the input that does not start with whitespace, and everything dropped is whitespace |
| Text.RStrip | pidcat.py:322 | the result is a prefix of the input that does not end with whitespace, and everything dropped is whitespace |
| Text.Strip | pidcat.py:322 | the result is the input with only whitespace around it, and it neither starts nor ends with whitespace |
| Text.Find | pidcat.py:252 | -1 exactly when the character is absent; otherwise the index of its first occurrence |
| Text.Spaces | pidcat.py:375 | `' ' * n` has max(n, 0) characters, all of them blanks |
| Regex.Match | pidcat.py:217-219 | a match's pieces split the whole string, each piece fitting its element (soundness of `re.match` with `$`) |
| Regex.MatchComplete | pidcat.py:217-219 | for a well-formed pattern, every split of the string into fitting pieces is the one Match finds (completeness, so the match is unique) |
| Regex.LastWhere | pidcat.py:214-215 | the greedy search: the last position below n that passes the test, with every later one failing; none exactly when no position passes |
| Regex.FirstWhere | pidcat.py:220 | the lazy search: the first position from `from` on that passes the test, with every earlier one failing; none exactly when no position passes |
| Regex.Greedy | pidcat.py:214-215 | a greedy `^.*` prefix: the rest of the pattern matches from the returned position |
| Regex.GreedyComplete | pidcat.py:214-215 | whenever the rest matches from some position, Greedy succeeds at that position or a later one |
| Regex.Lazy | pidcat.py:220 | a lazy `.+?` group: the rest of the pattern matches from the returned position |
| Regex.LazyComplete | pidcat.py:220 | whenever the rest matches from some position, Lazy succeeds at that position or an earlier one |
| Patterns.LogLineSound | pidcat.py:220 | every parsed log line is `<level>/<tag>(<blanks><digits>): <message>`, with an upper-case level and a non-empty tag |
| Patterns.LogLineLazy | pidcat.py:220 | every line of that shape is parsed; the parsed tag is the shortest tag the shape allows |
| Patterns.StartLineRecognised | pidcat.py:264-272 | any one-line message that one of the three start dialects matches is recognised by parse_start_proc |
| Patterns.ParseStartProc | pidcat.py:264-272 | PID_START_5_1, then PID_START, then PID_START_DALVIK; the first match gives the 5-tuple (uid and gids empty for 5.1, gids empty for Dalvik); the pid is digits and the package is package characters |
| Patterns.RecogniseDeath | pidcat.py:217-219 | one end dialect: a result exactly when its regex matches; Kill reads (group 1, group 2) and Leave and Death read (group 2, group 1) as (pid, name) |
| Patterns.RecogniseDeathAsWritten | pidcat.py:258-260 | the groups as the source reads them: the same as RecogniseDeath except that PID_DEATH's fields come out swapped |
| Packages.CatchAll | pidcat.py:154 | exactly the packages without a `:` |
| Packages.Named | pidcat.py:155-156 | exactly the packages with a `:`; a package whose only `:` is its last character loses that `:`, and any other is kept whole |
| Packages.MatchPackages | pidcat.py:248-252 | with no packages every token matches; otherwise a token matches iff it is a named process, or has no `:` and is a catch-all package, or its part before the first `:` is a catch-all package |
| Packages.MatchBySelection | pidcat.py:154-156 | in terms of the typed packages: `pkg` selects `pkg` and every `pkg:<svc>`, and `pkg:svc` selects only itself |
| Colors.PoolShape | pidcat.py:186 | LAST_USED always holds six colours, exactly the rotation colours |
| Colors.RemoveFirst | pidcat.py:197 | `list.remove`: one element shorter, one occurrence of the colour fewer |
| Colors.FirstAt | pidcat.py:197 | the position `list.remove` removes from: it holds the colour, and no earlier position does |
| Colors.RemoveFirstAt | pidcat.py:197 | `list.remove` deletes exactly the first occurrence and keeps the order of everything else |
| Colors.MoveToBackKeepsPool | pidcat.py:196-198 | moving a colour to the back keeps LAST_USED a permutation of the six colours; a rotation colour is removed and appended, and any other colour leaves the list unchanged |
| Colors.Allocated | pidcat.py:192-199 | the tag has a colour afterwards and it is the one returned; an existing entry is never changed; a new tag takes the front colour; the returned colour, when it was in the list, is now last and the others keep their order |
| Colors.AllocatedKeepsPool | pidcat.py:192-199 | allocate_color keeps LAST_USED a permutation of the six colours |
| Colors.AllocateAll | pidcat.py:192-199 | successive allocations give one colour per tag and keep the pool's length |
| Colors.AllocateAllAt | pidcat.py:192-199 | the i-th tag's colour is the one allocate_color gives it in the state the tags before it left |
| Colors.FreshTag | pidcat.py:193-198 | a new tag gets the front colour, which moves to the back |
| Colors.FreshTagsCycle | pidcat.py:186-199 | distinct new tags get the colours in rotation order: the i-th gets the colour at position i mod 6 |
| Colors.ColorAllocator.constructor | pidcat.py:186-190 | starts from the initial KNOWN_TAGS and LAST_USED |
| Colors.ColorAllocator.Allocate | pidcat.py:192-199 | the in-place update leaves exactly the table, list and colour Allocated gives, and keeps LAST_USED a permutation |
| Layout.ExpandTabs | pidcat.py:181 | no tab remains; a tab-free message is unchanged; the other characters are kept |
| Layout.ExpandTabsLength | pidcat.py:181 | each tab becomes four characters: the result is three characters longer per tab |
| Layout.ExpandTabsChar | pidcat.py:181 | a tab becomes four blanks and any other character stays as it is |
| Layout.Chunks | pidcat.py:183-184 | the slices concatenate back to the message; each is non-empty and at most the wrap width; all but the last have exactly the wrap width |
| Layout.IndentWrap | pidcat.py:179-184 | the message is returned unchanged when width <= 0 or width - header_size <= 0; otherwise no tab remains |
| Layout.WrapKeepsText | pidcat.py:181-184 | removing the inserted line breaks gives back the message with its tabs expanded |
| Layout.JoinLinesWidth | pidcat.py:184 | joining lines of at most w characters leaves no stretch without a line break longer than w |
| Layout.WrapWidth | pidcat.py:183-184 | a wrapped one-line message has no line longer than width - header_size |
| Layout.WrapExample | pidcat.py:179-184 | a 25-character message, terminal width 20 and header 10 give lines of 10, 10 and 5 characters |
| Layout.TagColumn | pidcat.py:372 | `tag[-w:].rjust(w)` has exactly w characters: the tag's last w, or the whole tag right-justified with blanks |
| Layout.TagColumnRoundTrip | pidcat.py:334-372 | a stripped tag no wider than the column is read back by left-stripping the column |
| Layout.Badge | pidcat.py:207-210 | the badge shows ` L ` and is coloured exactly for the six levels |
| Layout.StartBannerText | pidcat.py:341-345 | the start banner has six rows; its third row names the package and the target, however it is wrapped, and its fifth row is ` PID: <pid>   UID: <uid>   GIDs: <gids>` |
| Tracker.LevelRank | pidcat.py:93-94 | a rank exactly for the six levels, and LOG_LEVELS at that rank is the level |
| Tracker.Classify | pidcat.py:321-334 | a line is skipped iff, stripped, it is empty, carries the noise marker or is not a log line; otherwise the record holds the stripped line and its groups |
| Tracker.MessageOnOneLine | pidcat.py:220 | a parsed log line, and so its message, has no line break |
| Tracker.ClassifySound | pidcat.py:321-334 | a classified record is its line cut at the LOG_LINE groups, with the tag stripped |
| Tracker.FirstAccepted | pidcat.py:256-262 | the dialect loop returns the first result that is accepted (wanted name, tracked pid), and nothing when none is |
| Tracker.ParseDeath | pidcat.py:254-262 | nothing unless the tag is ActivityManager; a result has a tracked pid and a wanted name, comes from the first accepted of Kill, Leave, Death, and is always (pid, name); no result means no dialect is accepted |
| Tracker.ParseDeathAsWritten | pidcat.py:254-262 | as written: nothing unless the tag is ActivityManager; a result has a tracked "pid" and a wanted name |
| Tracker.DiedLineMatches | pidcat.py:217-219 | `Process <name> (pid <pid>) has died` is recognised only by PID_DEATH, which reads back (pid, name) |
| Tracker.DiedLineIgnoredAsWritten | pidcat.py:258-262 | with digit pids, the corrected reading removes a tracked pid on a "has died" line, while the code as written returns nothing |
| Tracker.StartPhase | pidcat.py:335-347 | an accepted start adds exactly its pid, sets the app pid, forgets the last tag and prints the start banner; otherwise nothing changes |
| Tracker.LoopDeath | pidcat.py:254-262 | the parse_death the loop calls, as written or corrected by `asWritten`: nothing unless the tag is ActivityManager; a result has a tracked pid and a wanted name and is one dialect's reading; no result means no dialect's reading is accepted |
| Tracker.DiedLineInLoop | pidcat.py:349-356 | on a "has died" line for a tracked, wanted process, the loop as written changes nothing and prints nothing, while the corrected loop removes the pid and prints the end banner |
| Tracker.DeathPhase | pidcat.py:349-356 | an end that the loop's parse_death (LoopDeath) returns removes exactly its pid, forgets the last tag and prints the end banner; otherwise nothing changes |
| Tracker.Attribute | pidcat.py:358-360 | a DEBUG message that is a backtrace frame once left-stripped is owned by the app pid and printed stripped; any other keeps its owner and message |
| Tracker.Admit | pidcat.py:362-365 | a record is dropped iff it is out of scope, its level ranks below the minimum, its tag is ignored, or tags were given and its tag matches none |
| Tracker.LevelFilterMonotone | pidcat.py:363 | lowering the minimum level never drops a record that was kept |
| Tracker.TagSegment | pidcat.py:368-376 | the tag column is always tag_width wide; a new or always-shown tag takes its allocated colour and becomes the last tag; a repeated tag leaves blanks and changes nothing |
| Tracker.Render | pidcat.py:367-383 | the printed line is the tag column and a blank (when tag_width > 0), the badge, a blank and the highlighted, wrapped message; known colours are kept |
| Tracker.Step | pidcat.py:320-383 | a skipped line changes nothing and prints nothing; the pool keeps its size and known colours are kept |
| Tracker.Lifecycle | pidcat.py:335-356 | the phases only touch pids, app pid and last tag, print at most two banners, and any banner resets the last tag |
| Tracker.LifecyclePids | pidcat.py:335-356 | a pid joins only through an accepted start line with that pid, and leaves only on an ActivityManager line that names it in an end dialect |
| Tracker.Kept | pidcat.py:358-383 | after the phases, the pids and app pid are unchanged, and exactly one line is printed when the filters admit the attributed record and none otherwise |
| Tracker.Handle | pidcat.py:335-383 | the pids and app pid are the lifecycle's; the output is its banners and then at most one record line |
| Tracker.StepPids | pidcat.py:335-356 | over a line read, only that line's start pid can join, and pids leave only on an ActivityManager line |
| Tracker.BacktraceFollowsApp | pidcat.py:358-362 | outside all-mode, a backtrace frame is kept only while the last started app is tracked, whatever pid its own line carries |
| Tracker.BannerResetsTag | pidcat.py:347-372 | after a banner, the record's own line shows its tag in full |
| Tracker.Steps | pidcat.py:307-383 | the loop over the lines read keeps the pool's size |
| Tracker.ReplayNext | pidcat.py:307-383 | the loop run over one more line is one more pass of its body from where it stood |
| Tracker.StepsIsReplay | pidcat.py:307-318 | the loop that stops at the first empty read is the line-by-line run over the lines before it |
| Tracker.StepsPids | pidcat.py:307-356 | every pid tracked after a run was tracked before or comes from a start line of the run |
| Tracker.Seeded | pidcat.py:288-293 | a pid is seeded iff some `ps` entry has that pid and a wanted process name |
| Session.Session.constructor | pidcat.py:186-190 | nothing tracked, no app, no last tag, the initial colour table |
| Session.Session.Seed | pidcat.py:283-293 | outside all-mode, the pids grow by exactly the seeded ones; in all-mode nothing changes |
| Session.Session.Start | pidcat.py:335-347 | the in-place start phase leaves the state and banners of StartPhase |
| Session.Session.End | pidcat.py:349-356 | the in-place end phase leaves the state and banners of DeathPhase |
| Session.Session.ShowTag | pidcat.py:368-376 | the tag column, updating only the colour table in place, gives the table, last tag and segment of TagSegment |
| Session.Session.Show | pidcat.py:367-383 | the in-place rendering leaves the colour table, last tag and line of Render |
| Session.Session.Keep | pidcat.py:358-383 | the in-place attribution, filters and rendering leave the state and output of Kept |
| Session.Session.ProcessRecord | pidcat.py:335-383 | the in-place phases, filters and rendering of a log line leave the state and output of Handle |
| Session.Session.ProcessLine | pidcat.py:320-383 | one pass of the loop body in place: the new state and output are those of Step |
| Session.Session.Run | pidcat.py:307-383 | the loop in place, up to the first empty read: the new state and output are those of Steps |

## Left out

- Device discovery and selection (lines 39-90) are not part of this model. Neither are argument
  parsing, the `--current` dumpsys query, clearing the log, or starting `adb` or the stdin reader.
  These are process and terminal I/O.
  `Config` holds the parsed settings.
- The terminal width is the `width` parameter; -1 stands for "unknown".
- The `ps` call and its PID_LINE parsing are left out. Seeding starts from already parsed
  `(pid, name)` pairs.
- colorize and the ANSI escapes are left out. A coloured piece is a `Painted` segment naming its colours.
  Printing is returning the segments.
- The `--tag` and `--ignore-tag` regexes compile user input. They are the abstract `tagRule`
  predicate of `Config`.
  `TagInRules` keeps the stripping of each rule and the "any rule matches" structure.
- The RULES highlight substitutions are the abstract `highlight` function.
- `\d` is ASCII digits only. Python also accepts other Unicode decimal digits.
- `\s` and `strip` use the whitespace set of `str.isspace`.
- `poll()`, blocking reads and the KeyboardInterrupt and generic exception handlers are left out.
  The input is a finite list of lines, and an empty read ends it.
- Layout.IndentWrap: its contract states only the unchanged cases and the absence of tabs. The
  text and width promises are the separate lemmas WrapKeepsText, WrapWidth, WrapExample and Chunks.
- Layout.StartBanner and Layout.DeathBanner build the banner segments. They are helpers without
  contracts of their own.
  StartBannerText, Tracker.StartPhase and Tracker.DeathPhase state what they print.
- Tracker.Steps: its own contract states only that the pool keeps its size. The pid facts are in
  StepsPids, and the equality with the imperative loop is in Session.Session.Run.

## Findings

| source | as written | input that shows it | evidently intended | confidence | as-written member | corrected member |
|---|---|---|---|---|---|---|
| pidcat.py:258-260 | group 1 is taken as the pid for every dialect except PID_LEAVE. PID_DEATH (line 219) has the process name in group 1 and the pid in group 2 | an ActivityManager message `Process com.example.app (pid 1234) has died` while `1234` is tracked and `com.example.app` is wanted. parse_death tries pid `com.example.app`, which is not tracked, so it returns nothing and 1234 stays tracked | the pid and name are swapped for PID_DEATH as they are for PID_LEAVE. The line yields (`1234`, `com.example.app`) and 1234 is no longer tracked | not executed | Tracker.DiedLineInLoop | Tracker.ParseDeath |
