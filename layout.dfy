/**
 * What pidcat.py prints for one line: the hard wrap of messages
 * (indent_wrap, lines 179-184), the tag column (lines 368-376), the level
 * badges (lines 206-209) and the process banners (lines 341-345, 352-354).
 * Colouring is kept abstract: a printed line is a list of segments, each
 * plain text or text painted with a foreground and a background colour.
 */
module Layout {
  import opened Wrappers
  import opened Text
  import opened Colors

  /** A piece of printed text; `Painted` is `colorize(text, fg, bg)`. */
  datatype Segment = Plain(text: string) | Painted(text: string, fg: Option<Color>, bg: Option<Color>)

  // ---------------------------------------------------------------- indent_wrap

  /** `message.replace('\t', '    ')`. */
  function ExpandTabs(s: string): (r: string)
    ensures '\t' !in r
    ensures '\t' !in s ==> r == s
    ensures forall c :: c != '\t' && c != ' ' ==> (c in r <==> c in s)
  {
    if s == [] then []
    else
      assert s == [s[0]] + s[1..];
      (if s[0] == '\t' then "    " else [s[0]]) + ExpandTabs(s[1..])
  }

  /** Each tab adds three characters: the message grows by three per tab and by nothing else. */
  lemma {:induction false} ExpandTabsLength(s: string)
    ensures |ExpandTabs(s)| == |s| + 3 * multiset(s)['\t']
  {
    if s != [] {
      assert s == [s[0]] + s[1..];
      assert multiset(s) == multiset{s[0]} + multiset(s[1..]);
      ExpandTabsLength(s[1..]);
    }
  }

  /**
   * One character: a tab becomes four blanks and any other character stays.
   * With ExpandTabsAppend this fixes ExpandTabs on every string.
   */
  lemma ExpandTabsChar(c: char)
    ensures ExpandTabs([c]) == if c == '\t' then "    " else [c]
  {
    assert [c][1..] == [];
  }

  /** The slices `s[i:i+w]` for `i` in `range(0, len(s), w)`. */
  function Chunks(s: string, w: int): (r: seq<string>)
    requires w > 0
    ensures Concat(r) == s
    ensures forall k :: 0 <= k < |r| ==> 0 < |r[k]| <= w
    ensures forall k :: 0 <= k < |r| - 1 ==> |r[k]| == w
    ensures forall k, c :: 0 <= k < |r| && c in r[k] ==> c in s
    decreases |s|
  {
    if s == [] then []
    else if |s| <= w then [s]
    else
      var rest := Chunks(s[w..], w);
      assert s == s[..w] + s[w..];
      assert forall c :: c in s[w..] ==> c in s;
      [s[..w]] + rest
  }

  /** `'\n'.join(lines)`. */
  function JoinLines(lines: seq<string>): string {
    if lines == [] then []
    else if |lines| == 1 then lines[0]
    else lines[0] + "\n" + JoinLines(lines[1..])
  }

  /** The string without its line breaks. */
  function RemoveNewlines(s: string): (r: string)
    ensures '\n' !in r
    ensures NoNewline(s) ==> r == s
  {
    if s == [] then []
    else (if s[0] == '\n' then [] else [s[0]]) + RemoveNewlines(s[1..])
  }

  /**
   * indent_wrap: cut the message, tabs expanded, into lines of the room
   * left of a terminal of `width` columns after the header.  Without a
   * terminal width, or without room, the message is left as it is.
   */
  function IndentWrap(width: int, headerSize: int, message: string): (r: string)
    ensures width <= 0 || width - headerSize <= 0 ==> r == message
    ensures width > 0 && width - headerSize > 0 ==> '\t' !in r
  {
    if width <= 0 || width - headerSize <= 0 then message
    else
      var chunks := Chunks(ExpandTabs(message), width - headerSize);
      JoinLinesNoTab(chunks);
      JoinLines(chunks)
  }

  lemma {:induction false} JoinLinesNoTab(lines: seq<string>)
    requires forall k :: 0 <= k < |lines| ==> '\t' !in lines[k]
    ensures '\t' !in JoinLines(lines)
  {
    if |lines| > 1 {
      JoinLinesNoTab(lines[1..]);
    }
  }

  lemma {:induction false} RemoveNewlinesAppend(a: string, b: string)
    ensures RemoveNewlines(a + b) == RemoveNewlines(a) + RemoveNewlines(b)
  {
    if a != [] {
      var h := if a[0] == '\n' then [] else [a[0]];
      ConsAppend(a, b);
      RemoveNewlinesAppend(a[1..], b);
      AppendAssoc(h, RemoveNewlines(a[1..]), RemoveNewlines(b));
    } else {
      assert a + b == b;
    }
  }

  lemma {:induction false} RemoveNewlinesJoin(lines: seq<string>)
    ensures RemoveNewlines(JoinLines(lines)) == RemoveNewlines(Concat(lines))
  {
    if |lines| == 1 {
      assert lines[1..] == [];
      assert Concat(lines) == lines[0] + Concat(lines[1..]) == lines[0];
    } else if |lines| > 1 {
      RemoveNewlinesJoin(lines[1..]);
      RemoveNewlinesAppend(lines[0] + "\n", JoinLines(lines[1..]));
      RemoveNewlinesAppend(lines[0], "\n");
      RemoveNewlinesAppend(lines[0], Concat(lines[1..]));
    }
  }

  /**
   * Taking out the line breaks of the wrapped message gives back the
   * message with its tabs expanded (and its own line breaks taken out).
   */
  lemma WrapKeepsText(width: int, headerSize: int, message: string)
    requires width > 0 && width - headerSize > 0
    ensures RemoveNewlines(IndentWrap(width, headerSize, message)) == RemoveNewlines(ExpandTabs(message))
  {
    RemoveNewlinesJoin(Chunks(ExpandTabs(message), width - headerSize));
  }

  /** No stretch of `s` without a line break is longer than `w`. */
  predicate LinesAtMost(s: string, w: int) {
    forall i, j :: 0 <= i <= j <= |s| && NoNewline(s[i..j]) ==> j - i <= w
  }

  lemma {:induction false} JoinLinesWidth(lines: seq<string>, w: nat)
    requires forall k :: 0 <= k < |lines| ==> NoNewline(lines[k]) && |lines[k]| <= w
    ensures LinesAtMost(JoinLines(lines), w)
  {
    if |lines| == 1 {
      var s := JoinLines(lines);
      assert s == lines[0];
      forall i, j | 0 <= i <= j <= |s| && NoNewline(s[i..j]) ensures j - i <= w {
        assert j - i <= |lines[0]|;
      }
    } else if |lines| > 1 {
      var c := lines[0];
      var rest := JoinLines(lines[1..]);
      JoinLinesWidth(lines[1..], w);
      var s := JoinLines(lines);
      assert s == c + "\n" + rest;
      forall i, j | 0 <= i <= |c| < j <= |s| ensures '\n' in s[i..j] {
        assert s[i..j][|c| - i] == '\n';
      }
      forall i, j | 0 <= i <= j <= |s| && NoNewline(s[i..j]) ensures j - i <= w {
        if j <= |c| {
          assert s[i..j] == c[i..j];
        } else if i > |c| {
          assert s[i..j] == rest[i - |c| - 1..j - |c| - 1];
        }
      }
    }
  }

  /**
   * A message without line breaks comes out as lines no longer than the
   * room after the header.
   */
  lemma WrapWidth(width: int, headerSize: int, message: string)
    requires width > 0 && width - headerSize > 0 && NoNewline(message)
    ensures LinesAtMost(IndentWrap(width, headerSize, message), width - headerSize)
  {
    var chunks := Chunks(ExpandTabs(message), width - headerSize);
    forall k | 0 <= k < |chunks| ensures NoNewline(chunks[k]) {
      assert '\n' in chunks[k] ==> '\n' in ExpandTabs(message);
    }
    JoinLinesWidth(chunks, width - headerSize);
  }

  /**
   * A 25-character message without tabs, with a 20-column terminal and a
   * 10-column header, comes out as lines of 10, 10 and 5 characters.
   */
  lemma WrapExample(m: string)
    requires |m| == 25 && '\t' !in m
    ensures IndentWrap(20, 10, m) == m[..10] + "\n" + m[10..20] + "\n" + m[20..]
  {
    var tail := m[10..];
    assert m == m[..10] + tail && tail == m[10..20] + m[20..];
    ChunksOf(m[..10], tail, 10);
    ChunksOf(m[10..20], m[20..], 10);
    var lines := [m[..10], m[10..20], m[20..]];
    assert Chunks(m, 10) == lines;
    assert ExpandTabs(m) == m;
    assert JoinLines(lines[1..]) == m[10..20] + "\n" + JoinLines(lines[2..]);
    assert JoinLines(lines[2..]) == m[20..];
  }

  lemma ChunksOf(head: string, tail: string, w: int)
    requires w > 0 && |head| == w && |tail| > 0
    ensures Chunks(head + tail, w) == [head] + Chunks(tail, w)
  {
    assert (head + tail)[..w] == head && (head + tail)[w..] == tail;
  }

  // ---------------------------------------------------------------- tag column

  /** `tag[-w:].rjust(w)` for a positive `w`. */
  function TagColumn(tag: string, w: int): (r: string)
    requires w > 0
    ensures |r| == w
    ensures |tag| >= w ==> r == tag[|tag| - w..]
    ensures |tag| < w ==> r[w - |tag|..] == tag && forall i :: 0 <= i < w - |tag| ==> r[i] == ' '
  {
    var t := if |tag| >= w then tag[|tag| - w..] else tag;
    Spaces(w - |t|) + t
  }

  /** A tag no wider than the column, stripped as line 334 strips it, is read back by stripping the column. */
  lemma TagColumnRoundTrip(tag: string, w: int)
    requires w > 0 && |tag| <= w && (tag == [] || !IsSpace(tag[0]))
    ensures LStrip(TagColumn(tag, w)) == tag
  {
    var r := TagColumn(tag, w);
    var n := w - |tag|;
    assert r == r[..n] + tag;
    LStripSpaces(r[..n], tag);
  }

  lemma {:induction false} LStripSpaces(pad: string, t: string)
    requires forall i :: 0 <= i < |pad| ==> pad[i] == ' '
    requires t == [] || !IsSpace(t[0])
    ensures LStrip(pad + t) == t
  {
    if pad != [] {
      assert (pad + t)[1..] == pad[1..] + t;
      LStripSpaces(pad[1..], t);
    }
  }

  // ---------------------------------------------------------------- badges

  /** TAGTYPES: the foreground and background of each level's badge. */
  function BadgeColors(level: char): Option<(Color, Color)> {
    match level
    case 'V' => Some((White, Black))
    case 'D' => Some((Black, Blue))
    case 'I' => Some((Black, Green))
    case 'W' => Some((Black, Yellow))
    case 'E' => Some((Black, Red))
    case 'F' => Some((Black, Red))
    case _ => None
  }

  /** `TAGTYPES.get(level, ' ' + level + ' ')`. */
  function Badge(level: char): (r: Segment)
    ensures r.text == [' ', level, ' ']
    ensures r.Painted? <==> level in "VDIWEF"
  {
    match BadgeColors(level)
    case Some((fg, bg)) => Painted([' ', level, ' '], Some(fg), Some(bg))
    case None => Plain([' ', level, ' '])
  }

  // ---------------------------------------------------------------- banners

  /** Lines 341-345: the banner for a process that starts. */
  function StartBanner(width: int, headerSize: int, package: string, target: string,
                       pid: string, uid: string, gids: string): seq<Segment> {
    var bar := Painted(Spaces(headerSize - 1), None, Some(White));
    [Plain("\n"), bar, Plain(IndentWrap(width, headerSize, " Process " + package + " created for " + target + "\n")), bar,
     Plain(" PID: " + pid + "   UID: " + uid + "   GIDs: " + gids), Plain("\n")]
  }

  /**
   * The start banner names the package and the target on its first row,
   * however it is wrapped, and the pid, uid and gids on its second.
   */
  lemma StartBannerText(width: int, headerSize: int, package: string, target: string,
                        pid: string, uid: string, gids: string)
    ensures var text := " Process " + package + " created for " + target;
      var r := StartBanner(width, headerSize, package, target, pid, uid, gids);
      |r| == 6
      && (width > 0 && width - headerSize > 0 ==> RemoveNewlines(r[2].text) == RemoveNewlines(ExpandTabs(text)))
      && (width <= 0 || width - headerSize <= 0 ==> r[2].text == text + "\n")
      && r[4] == Plain(" PID: " + pid + "   UID: " + uid + "   GIDs: " + gids)
  {
    var text := " Process " + package + " created for " + target;
    if width > 0 && width - headerSize > 0 {
      ExpandTabsNewline(text);
      WrapKeepsText(width, headerSize, text + "\n");
    }
  }

  lemma ExpandTabsNewline(s: string)
    ensures RemoveNewlines(ExpandTabs(s + "\n")) == RemoveNewlines(ExpandTabs(s))
  {
    ExpandTabsAppend(s, "\n");
    assert ExpandTabs("\n") == "\n";
    RemoveNewlinesAppend(ExpandTabs(s), "\n");
  }

  lemma {:induction false} ExpandTabsAppend(a: string, b: string)
    ensures ExpandTabs(a + b) == ExpandTabs(a) + ExpandTabs(b)
  {
    if a != [] {
      var h := if a[0] == '\t' then "    " else [a[0]];
      ConsAppend(a, b);
      ExpandTabsAppend(a[1..], b);
      AppendAssoc(h, ExpandTabs(a[1..]), ExpandTabs(b));
    } else {
      assert a + b == b;
    }
  }

  /** Lines 352-354: the banner for a process that ends. */
  function DeathBanner(headerSize: int, pname: string, pid: string): seq<Segment> {
    [Plain("\n"), Painted(Spaces(headerSize - 1), None, Some(Red)),
     Plain(" Process " + pname + " (PID: " + pid + ") ended"), Plain("\n")]
  }
}
