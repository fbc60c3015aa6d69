/**
 * The package filter of pidcat.py: the command-line packages split into
 * catch-all packages and named processes (lines 154-156), and
 * match_packages (lines 248-252), which decides whether a process name is
 * one the user asked for.
 */
module Packages {
  import opened Text

  /** The packages as given, and the two lists built from them. */
  datatype PackageFilter = PackageFilter(packages: seq<string>, catchAll: seq<string>, named: seq<string>)

  /**
   * A named process as line 156 keeps it: when the first `:` is the last
   * character (`pkg:`, the main process only), it is dropped.  (For the
   * empty string Python's `p[:-1]` is `p` again.)
   */
  function NamedForm(p: string): string {
    if |p| > 0 && Find(p, ':') == |p| - 1 then p[..|p| - 1] else p
  }

  /** Line 154: the packages without a `:`, in order. */
  function CatchAll(ps: seq<string>): (r: seq<string>)
    ensures forall p :: p in r <==> p in ps && ':' !in p
  {
    if ps == [] then []
    else if Find(ps[0], ':') == -1 then [ps[0]] + CatchAll(ps[1..])
    else CatchAll(ps[1..])
  }

  /** Lines 155-156: the packages with a `:`, each in its named form, in order. */
  function Named(ps: seq<string>): (r: seq<string>)
    ensures forall q :: q in r <==> exists p :: p in ps && ':' in p && q == NamedForm(p)
  {
    if ps == [] then []
    else
      var rest := Named(ps[1..]);
      assert forall p :: p in ps[1..] ==> p in ps;
      if Find(ps[0], ':') != -1 then [NamedForm(ps[0])] + rest else rest
  }

  function Split(packages: seq<string>): PackageFilter {
    PackageFilter(packages, CatchAll(packages), Named(packages))
  }

  /** `i` is the index of the first `:` in `token`. */
  predicate FirstColonAt(token: string, i: int) {
    0 <= i < |token| && token[i] == ':' && ':' !in token[..i]
  }

  /**
   * match_packages: everything matches when no package was given; otherwise
   * a named process must match exactly, and a catch-all package matches the
   * name up to its first `:`.
   */
  function MatchPackages(f: PackageFilter, token: string): (r: bool)
    ensures |f.packages| == 0 ==> r
    ensures |f.packages| > 0 ==>
      (r <==> token in f.named
              || (':' !in token && token in f.catchAll)
              || (exists i :: FirstColonAt(token, i) && token[..i] in f.catchAll))
  {
    if |f.packages| == 0 then true
    else if token in f.named then true
    else
      var index := Find(token, ':');
      assert index >= 0 ==> FirstColonAt(token, index);
      if index == -1 then token in f.catchAll else token[..index] in f.catchAll
  }

  /** What one command-line package `p` selects. */
  predicate Selects(p: string, token: string) {
    if ':' in p then token == NamedForm(p)
    else token == p || p + ":" <= token
  }

  /**
   * In terms of the packages the user typed: with at least one package, a
   * process name matches iff some package selects it, where `pkg` selects
   * `pkg` and every `pkg:<anything>`, and `pkg:svc` (or `pkg:`) selects
   * exactly its named form.
   */
  lemma MatchBySelection(packages: seq<string>, token: string)
    requires |packages| > 0
    ensures MatchPackages(Split(packages), token) <==> exists p :: p in packages && Selects(p, token)
  {
    var f := Split(packages);
    if MatchPackages(f, token) {
      if token in f.named {
        var p :| p in packages && ':' in p && token == NamedForm(p);
        assert Selects(p, token);
      } else if ':' !in token && token in f.catchAll {
        assert Selects(token, token);
      } else {
        var i :| FirstColonAt(token, i) && token[..i] in f.catchAll;
        var p := token[..i];
        assert token[..i + 1] == p + ":";
        assert Selects(p, token);
      }
    } else {
      forall p | p in packages ensures !Selects(p, token) {
        if ':' in p {
          assert token == NamedForm(p) ==> token in f.named;
        } else if token != p && p + ":" <= token {
          assert token[|p|] == ':' && token[..|p|] == p;
          assert FirstColonAt(token, |p|);
        }
      }
    }
  }
}
