/**
 * The fixed regular expressions of the log classifier share one shape: a
 * sequence of literals and greedy character-class runs in which every run
 * stops at a character the next element cannot start with.  For such a
 * pattern Python's backtracking matcher has at most one way to succeed, so a
 * left-to-right scan that takes each run as far as it goes finds exactly the
 * match `re.match` reports.  `Match` is that scan; `Splits` is the regex
 * meaning of a pattern (the ways to cut a string into pieces, one per
 * element); `Match`'s own contract (soundness) and `MatchComplete`
 * connect the two.
 *
 * `.` is taken to match any character: every string these patterns see is
 * free of line breaks (see the recognisers in module Patterns).
 */
module Regex {
  import opened Wrappers
  import opened Text

  /** The character classes the patterns use. */
  datatype CharClass =
    | Digit          // \d, taken as ASCII digits
    | Blank          // a literal space, as in ` *`
    | WhiteSpace     // \s
    | PackageChar    // [a-zA-Z0-9._:]
    | LowerOrDigit   // [a-z0-9]
    | Lower          // [a-z]
    | NotColon       // [^:]

  predicate InClass(c: CharClass, ch: char) {
    match c
    case Digit => IsDigit(ch)
    case Blank => ch == ' '
    case WhiteSpace => IsSpace(ch)
    case PackageChar => 'a' <= ch <= 'z' || 'A' <= ch <= 'Z' || '0' <= ch <= '9' || ch == '.' || ch == '_' || ch == ':'
    case LowerOrDigit => 'a' <= ch <= 'z' || '0' <= ch <= '9'
    case Lower => 'a' <= ch <= 'z'
    case NotColon => ch != ':'
  }

  predicate AllIn(c: CharClass, s: string) {
    forall i :: 0 <= i < |s| ==> InClass(c, s[i])
  }

  /** One element of a pattern. */
  datatype Elem =
    | Lit(text: string)     // a literal
    | Plus(cls: CharClass)  // [..]+, greedy
    | Star(cls: CharClass)  // [..]*, greedy
    | Rest                  // .*  up to the end
    | AnyOpt                // .?  at the end

  /** What a piece of the input may be to be matched by one element. */
  predicate Fits(e: Elem, piece: string) {
    match e
    case Lit(t) => piece == t
    case Plus(c) => |piece| > 0 && AllIn(c, piece)
    case Star(c) => AllIn(c, piece)
    case Rest => true
    case AnyOpt => |piece| <= 1
  }

  /** `ps` cuts `s` into one piece per element of `pat`, each fitting its element. */
  predicate Splits(pat: seq<Elem>, s: string, ps: seq<string>) {
    |ps| == |pat| && Concat(ps) == s && forall i :: 0 <= i < |pat| ==> Fits(pat[i], ps[i])
  }

  /** A run of class `c` cannot continue into the piece matched by `next`. */
  predicate Stops(c: CharClass, next: Elem) {
    match next
    case Lit(t) => |t| > 0 && !InClass(c, t[0])
    case Plus(d) => forall ch :: InClass(d, ch) ==> !InClass(c, ch)
    case _ => false
  }

  predicate ElemOk(pat: seq<Elem>, i: nat)
    requires i < |pat|
  {
    match pat[i]
    case Lit(t) => |t| > 0
    case Plus(c) => i == |pat| - 1 || Stops(c, pat[i + 1])
    case Star(c) => i == |pat| - 1 || Stops(c, pat[i + 1])
    case Rest => i == |pat| - 1
    case AnyOpt => i == |pat| - 1
  }

  /** The patterns for which the maximal-run scan is the regex semantics. */
  predicate WellFormed(pat: seq<Elem>) {
    forall i :: 0 <= i < |pat| ==> ElemOk(pat, i)
  }

  /** The length of the longest prefix of `s` inside class `c`. */
  function Span(c: CharClass, s: string): (n: nat)
    ensures n <= |s| && AllIn(c, s[..n])
    ensures n < |s| ==> !InClass(c, s[n])
  {
    if |s| > 0 && InClass(c, s[0]) then
      var k := Span(c, s[1..]);
      assert s[..k + 1] == [s[0]] + s[1..][..k];
      k + 1
    else 0
  }

  /** How much of `s` the first element of a pattern takes, if it matches at all. */
  function Take(e: Elem, s: string): (n: Option<nat>)
    ensures n.Some? ==> n.value <= |s| && Fits(e, s[..n.value])
  {
    match e
    case Lit(t) => if t <= s then Some(|t|) else None
    case Plus(c) => var k := Span(c, s); if k > 0 then Some(k) else None
    case Star(c) => Some(Span(c, s))
    case Rest => Some(|s|)
    case AnyOpt => Some(if |s| > 0 then 1 else 0)
  }

  /** `re.match` of the whole pattern against the whole of `s`: the piece of each element, or None. */
  function Match(pat: seq<Elem>, s: string): (r: Option<seq<string>>)
    ensures r.Some? ==> Splits(pat, s, r.value)
    decreases |pat|
  {
    if pat == [] then
      if s == [] then Some([]) else None
    else
      match Take(pat[0], s)
      case None => None
      case Some(n) =>
        match Match(pat[1..], s[n..])
        case None => None
        case Some(ps) =>
          var r := [s[..n]] + ps;
          assert r[1..] == ps;
          assert s[..n] + s[n..] == s;
          Some(r)
  }

  /** A greedy run over `a` stops exactly where a character outside its class starts. */
  lemma {:induction false} SpanExact(c: CharClass, a: string, b: string)
    requires AllIn(c, a)
    requires b == [] || !InClass(c, b[0])
    ensures Span(c, a + b) == |a|
  {
    if a != [] {
      assert (a + b)[1..] == a[1..] + b;
      SpanExact(c, a[1..], b);
    }
  }

  lemma WellFormedTail(pat: seq<Elem>)
    requires pat != [] && WellFormed(pat)
    ensures WellFormed(pat[1..])
  {
    forall i | 0 <= i < |pat| - 1 ensures ElemOk(pat[1..], i) {
      assert ElemOk(pat, i + 1);
    }
  }

  /** The pieces after the first cut the rest of the string by the rest of the pattern. */
  lemma SplitsTail(pat: seq<Elem>, s: string, ps: seq<string>)
    requires pat != [] && Splits(pat, s, ps)
    ensures s == ps[0] + Concat(ps[1..]) && Fits(pat[0], ps[0])
    ensures Splits(pat[1..], Concat(ps[1..]), ps[1..])
  {
    assert Fits(pat[0], ps[0]);
    forall i | 0 <= i < |pat| - 1 ensures Fits(pat[1..][i], ps[1..][i]) {
      assert Fits(pat[i + 1], ps[i + 1]);
    }
  }

  /**
   * In a well-formed pattern the first element takes exactly its own piece:
   * a run stops where the next piece starts.
   */
  lemma TakeFirst(pat: seq<Elem>, s: string, ps: seq<string>)
    requires pat != [] && WellFormed(pat) && Splits(pat, s, ps)
    ensures Take(pat[0], s) == Some(|ps[0]|)
  {
    var rest := Concat(ps[1..]);
    SplitsTail(pat, s, ps);
    assert ElemOk(pat, 0);
    if |pat| == 1 {
      assert ps[1..] == [];
    } else {
      assert Fits(pat[1], ps[1]);
      assert rest == ps[1] + Concat(ps[2..]);
    }
    match pat[0] {
      case Lit(t) =>
        assert s[..|t|] == t;
      case Plus(c) =>
        SpanExact(c, ps[0], rest);
      case Star(c) =>
        SpanExact(c, ps[0], rest);
      case Rest =>
      case AnyOpt =>
    }
  }

  /**
   * Any way of cutting `s` by a well-formed pattern is the one `Match` finds:
   * the pattern matches whenever it can, and its groups are determined.
   */
  lemma {:induction false} MatchComplete(pat: seq<Elem>, s: string, ps: seq<string>)
    requires WellFormed(pat) && Splits(pat, s, ps)
    ensures Match(pat, s) == Some(ps)
    decreases |pat|
  {
    if pat != [] {
      var rest := Concat(ps[1..]);
      SplitsTail(pat, s, ps);
      TakeFirst(pat, s, ps);
      WellFormedTail(pat);
      var n := |ps[0]|;
      assert s[..n] == ps[0] && s[n..] == rest;
      MatchComplete(pat[1..], rest, ps[1..]);
      assert [s[..n]] + ps[1..] == ps;
    }
  }

  /** The cuts `q` of `s` after which `pat` matches the rest. */
  function MatchesAfter(pat: seq<Elem>, s: string): nat -> bool {
    (q: nat) => q <= |s| && Match(pat, s[q..]).Some?
  }

  /** The largest `k < n` with `ok(k)`, or None when there is none. */
  function LastWhere(ok: nat -> bool, n: nat): (r: Option<nat>)
    ensures r.Some? ==> r.value < n && ok(r.value)
    ensures r.Some? ==> forall q :: r.value < q < n ==> !ok(q)
    ensures r.None? ==> forall q :: 0 <= q < n ==> !ok(q)
  {
    if n == 0 then None
    else if ok(n - 1) then Some(n - 1)
    else LastWhere(ok, n - 1)
  }

  /** The smallest `k` with `from <= k <= last` and `ok(k)`, or None when there is none. */
  function FirstWhere(ok: nat -> bool, from: nat, last: nat): (r: Option<nat>)
    ensures r.Some? ==> from <= r.value <= last && ok(r.value)
    ensures r.Some? ==> forall q :: from <= q < r.value ==> !ok(q)
    ensures r.None? ==> forall q :: from <= q <= last ==> !ok(q)
    decreases last + 1 - from
  {
    if from > last then None
    else if ok(from) then Some(from)
    else FirstWhere(ok, from + 1, last)
  }

  /** `re.match` of `.*` followed by `pat`: the cut chosen by the greedy prefix and the pieces after it. */
  function Greedy(pat: seq<Elem>, s: string): (r: Option<(nat, seq<string>)>)
    ensures r.Some? ==> r.value.0 <= |s| && Splits(pat, s[r.value.0..], r.value.1)
  {
    match LastWhere(MatchesAfter(pat, s), |s| + 1)
    case None => None
    case Some(k) =>
      assert MatchesAfter(pat, s)(k);
      Some((k, Match(pat, s[k..]).value))
  }

  /**
   * The greedy prefix takes the longest cut after which `pat` still matches:
   * whenever `pat` can match after `k`, `Greedy` succeeds with a cut at or
   * after `k`, and a cut at `k` itself gives the same pieces.
   */
  lemma GreedyComplete(pat: seq<Elem>, s: string, k: nat, ps: seq<string>)
    requires WellFormed(pat) && k <= |s| && Splits(pat, s[k..], ps)
    ensures Greedy(pat, s).Some? && Greedy(pat, s).value.0 >= k
    ensures Greedy(pat, s).value.0 == k ==> Greedy(pat, s).value.1 == ps
  {
    MatchComplete(pat, s[k..], ps);
    assert MatchesAfter(pat, s)(k);
  }

  /** `re.match` of `.+?` (lazy, at least `from` characters in all) followed by `pat`. */
  function Lazy(pat: seq<Elem>, s: string, from: nat): (r: Option<(nat, seq<string>)>)
    ensures r.Some? ==> from <= r.value.0 <= |s| && Splits(pat, s[r.value.0..], r.value.1)
  {
    match FirstWhere(MatchesAfter(pat, s), from, |s|)
    case None => None
    case Some(k) =>
      assert MatchesAfter(pat, s)(k);
      Some((k, Match(pat, s[k..]).value))
  }

  /** The lazy prefix takes the shortest cut (at least `from`) after which `pat` matches. */
  lemma LazyComplete(pat: seq<Elem>, s: string, from: nat, k: nat, ps: seq<string>)
    requires WellFormed(pat) && from <= k <= |s| && Splits(pat, s[k..], ps)
    ensures Lazy(pat, s, from).Some? && Lazy(pat, s, from).value.0 <= k
    ensures Lazy(pat, s, from).value.0 == k ==> Lazy(pat, s, from).value.1 == ps
  {
    MatchComplete(pat, s[k..], ps);
    assert MatchesAfter(pat, s)(k);
  }

  lemma ConcatFrom(ps: seq<string>, i: nat)
    requires i < |ps|
    ensures Concat(ps[i..]) == ps[i] + Concat(ps[i + 1..])
  {
    assert ps[i..][1..] == ps[i + 1..];
  }

  lemma Concat5(ps: seq<string>)
    requires |ps| == 5
    ensures Concat(ps) == ps[0] + ps[1] + ps[2] + ps[3] + ps[4]
  {
    ConcatFrom(ps, 4);
    ConcatFrom(ps, 3);
    ConcatFrom(ps, 2);
    ConcatFrom(ps, 1);
    ConcatFrom(ps, 0);
    assert ps[0..] == ps;
  }

  lemma Concat6(ps: seq<string>)
    requires |ps| == 6
    ensures Concat(ps) == ps[0] + ps[1] + ps[2] + ps[3] + ps[4] + ps[5]
  {
    Concat5(ps[1..]);
    assert ps[1..][1..] == ps[2..];
  }

  /** A pattern that opens with a literal fails on a string that does not start with it. */
  lemma LitMismatch(pat: seq<Elem>, s: string)
    requires pat != [] && pat[0].Lit? && |pat[0].text| > 0 && |s| > 0 && s[0] != pat[0].text[0]
    ensures Match(pat, s).None?
  {
    assert !(pat[0].text <= s);
  }
}
