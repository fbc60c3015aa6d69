/**
 * The tag colour allocator of pidcat.py (lines 167, 186-199): a table of
 * tag colours that only grows, and a least-recently-used rotation of the
 * six colours that new tags draw from.
 */
module Colors {
  import opened Text

  /** The eight terminal colours, in the order of `range(8)` at line 167. */
  datatype Color = Black | Red | Green | Yellow | Blue | Magenta | Cyan | White

  /** The initial LAST_USED: the colours a new tag can get, least recently used first. */
  const RotationPool: seq<Color> := [Red, Green, Yellow, Blue, Magenta, Cyan]

  /** The initial KNOWN_TAGS: fixed colours, some outside the rotation pool. */
  const InitialTags: map<string, Color> := map[
    "dalvikvm" := White, "Process" := White, "ActivityManager" := White, "ActivityThread" := White,
    "AndroidRuntime" := Cyan, "jdwp" := White, "StrictMode" := White, "DEBUG" := Yellow]

  /** KNOWN_TAGS and LAST_USED as values. */
  datatype Palette = Palette(known: map<string, Color>, pool: seq<Color>)

  const InitialPalette: Palette := Palette(InitialTags, RotationPool)

  /** LAST_USED is always some order of the six rotation colours. */
  predicate IsPool(pool: seq<Color>) {
    multiset(pool) == multiset(RotationPool)
  }

  /** A pool holds exactly six colours, and exactly the rotation colours. */
  lemma PoolShape(pool: seq<Color>, c: Color)
    requires IsPool(pool)
    ensures |pool| == 6
    ensures c in pool <==> c in RotationPool
  {
    assert |pool| == |multiset(pool)| == |multiset(RotationPool)| == |RotationPool|;
    assert c in pool <==> c in multiset(pool);
    assert c in RotationPool <==> c in multiset(RotationPool);
  }

  /** `list.remove(c)`: the list without its first `c`. */
  function RemoveFirst(s: seq<Color>, c: Color): (r: seq<Color>)
    requires c in s
    ensures |r| == |s| - 1
    ensures multiset(r) == multiset(s) - multiset{c}
  {
    assert s == [s[0]] + s[1..];
    if s[0] == c then s[1..]
    else
      [s[0]] + RemoveFirst(s[1..], c)
  }

  /** The position of the first `c` in `s`: the one `list.remove(c)` removes. */
  function FirstAt(s: seq<Color>, c: Color): (k: nat)
    requires c in s
    ensures k < |s| && s[k] == c && c !in s[..k]
  {
    if s[0] == c then 0
    else
      assert c in s[1..] by {
        var j :| 0 <= j < |s| && s[j] == c;
        assert s[1..][j - 1] == c;
      }
      var k := FirstAt(s[1..], c);
      assert s[..k + 1] == [s[0]] + s[1..][..k];
      k + 1
  }

  /** Which `c` goes: the first one; the colours before and after it stay, in order. */
  lemma {:induction false} RemoveFirstAt(s: seq<Color>, c: Color)
    requires c in s
    ensures var k := FirstAt(s, c); RemoveFirst(s, c) == s[..k] + s[k + 1..]
  {
    if s[0] != c {
      var t := s[1..];
      assert s == [s[0]] + t;
      assert c in t;
      RemoveFirstAt(t, c);
      var k := FirstAt(t, c);
      assert FirstAt(s, c) == k + 1;
      calc {
        RemoveFirst(s, c);
        [s[0]] + RemoveFirst(t, c);
        [s[0]] + (t[..k] + t[k + 1..]);
        { SplitAfterHead(s, k); }
        s[..k + 1] + s[k + 2..];
      }
    }
  }

  lemma SplitAfterHead<T>(s: seq<T>, k: nat)
    requires k + 1 < |s|
    ensures [s[0]] + (s[1..][..k] + s[1..][k + 1..]) == s[..k + 1] + s[k + 2..]
  {
    assert s[..k + 1] == [s[0]] + s[1..][..k];
    assert s[k + 2..] == s[1..][k + 1..];
  }

  /** Lines 196-198: a colour of the list moves to the back; any other colour leaves it as it is. */
  function MoveToBack(pool: seq<Color>, c: Color): seq<Color> {
    if c in pool then RemoveFirst(pool, c) + [c] else pool
  }

  /**
   * Moving a colour to the back keeps LAST_USED an order of the six
   * colours; a rotation colour always is in it, and the fixed colours
   * (WHITE) never are.
   */
  lemma MoveToBackKeepsPool(pool: seq<Color>, c: Color)
    requires IsPool(pool)
    ensures IsPool(MoveToBack(pool, c))
    ensures c in RotationPool ==> MoveToBack(pool, c) == RemoveFirst(pool, c) + [c]
    ensures c !in RotationPool ==> MoveToBack(pool, c) == pool
  {
    PoolShape(pool, c);
    if c in pool {
      var r := RemoveFirst(pool, c);
      assert multiset(r + [c]) == multiset(r) + multiset{c};
    }
  }

  /**
   * allocate_color on values: the new table, the new LAST_USED and the
   * tag's colour.  A tag keeps the colour it has; a new tag takes the
   * least recently used one; the colour handed out, when it is in
   * LAST_USED, becomes the most recently used and the others keep their
   * order.
   */
  function Allocated(p: Palette, tag: string): (r: (Palette, Color))
    requires p.pool != []
    ensures tag in r.0.known && r.1 == r.0.known[tag]
    ensures tag in p.known ==> r.0.known == p.known
    ensures tag !in p.known ==> r.0.known == p.known[tag := p.pool[0]]
    ensures |r.0.pool| == |p.pool|
    ensures r.1 in p.pool ==> r.0.pool[|p.pool| - 1] == r.1 && r.0.pool[..|p.pool| - 1] == RemoveFirst(p.pool, r.1)
    ensures r.1 !in p.pool ==> r.0.pool == p.pool
  {
    var known := if tag in p.known then p.known else p.known[tag := p.pool[0]];
    var color := known[tag];
    var pool := MoveToBack(p.pool, color);
    assert color in p.pool ==> pool[..|p.pool| - 1] == RemoveFirst(p.pool, color);
    (Palette(known, pool), color)
  }

  /** allocate_color keeps LAST_USED an order of the six rotation colours. */
  lemma AllocatedKeepsPool(p: Palette, tag: string)
    requires IsPool(p.pool)
    ensures |p.pool| == 6
    ensures IsPool(Allocated(p, tag).0.pool)
  {
    PoolShape(p.pool, Red);
    MoveToBackKeepsPool(p.pool, Allocated(p, tag).1);
  }

  /**
   * Successive allocations for a list of tags: the palette after them and
   * each tag's colour (see AllocateAllAt for which colour).
   */
  function AllocateAll(p: Palette, tags: seq<string>): (r: (Palette, seq<Color>))
    requires p.pool != []
    ensures |r.0.pool| == |p.pool| && |r.1| == |tags|
    decreases |tags|
  {
    if tags == [] then (p, [])
    else
      var first := Allocated(p, tags[0]);
      var rest := AllocateAll(first.0, tags[1..]);
      (rest.0, [first.1] + rest.1)
  }

  /**
   * The i-th tag gets the colour allocate_color gives it in the table and
   * LAST_USED that the tags before it left.
   */
  lemma {:induction false} AllocateAllAt(p: Palette, tags: seq<string>, i: nat)
    requires p.pool != [] && i < |tags|
    ensures AllocateAll(p, tags[..i]).0.pool != []
    ensures AllocateAll(p, tags).1[i] == Allocated(AllocateAll(p, tags[..i]).0, tags[i]).1
    decreases i
  {
    if i == 0 {
      assert tags[..i] == [];
      AllocateAllCons(p, tags);
    } else {
      var p1 := Allocated(p, tags[0]).0;
      AllocateAllAt(p1, tags[1..], i - 1);
      AllocateAllPrefix(p, tags, i);
      AllocateAllCons(p, tags);
      assert tags[1..][i - 1] == tags[i];
    }
  }

  /** Allocating for a first tag, then for the rest. */
  lemma AllocateAllCons(p: Palette, tags: seq<string>)
    requires p.pool != [] && tags != []
    ensures var (p1, c) := Allocated(p, tags[0]);
      AllocateAll(p, tags) == (AllocateAll(p1, tags[1..]).0, [c] + AllocateAll(p1, tags[1..]).1)
  {
  }

  /** The palette the first i tags leave is the one the next i - 1 leave after the first. */
  lemma AllocateAllPrefix(p: Palette, tags: seq<string>, i: nat)
    requires p.pool != [] && 0 < i <= |tags|
    ensures AllocateAll(p, tags[..i]).0 == AllocateAll(Allocated(p, tags[0]).0, tags[1..][..i - 1]).0
  {
    TakeTail(tags, i);
    AllocateAllCons(p, tags[..i]);
  }

  /** A tag with no colour yet takes the least recently used colour, which moves to the back. */
  lemma FreshTag(p: Palette, tag: string)
    requires p.pool != [] && tag !in p.known
    ensures Allocated(p, tag).1 == p.pool[0]
    ensures Allocated(p, tag).0 == Palette(p.known[tag := p.pool[0]], p.pool[1..] + [p.pool[0]])
  {
    assert RemoveFirst(p.pool, p.pool[0]) == p.pool[1..];
  }

  /** Position i - 1 of a six-colour pool rotated by one holds what position i held, mod 6. */
  lemma RotatedSlot<T>(pool: seq<T>, i: int)
    requires |pool| == 6 && i > 0
    ensures (pool[1..] + [pool[0]])[(i - 1) % 6] == pool[i % 6]
  {
    var j := (i - 1) % 6;
    if j < 5 {
      assert i % 6 == j + 1;
    } else {
      assert i % 6 == 0;
    }
  }

  /**
   * Distinct tags that have no colour yet take the rotation's colours in
   * turn: the i-th gets the colour at position i mod 6, so the seventh
   * reuses the first one's colour.
   */
  lemma {:induction false} FreshTagsCycle(p: Palette, tags: seq<string>)
    requires |p.pool| == 6
    requires forall i, j :: 0 <= i < j < |tags| ==> tags[i] != tags[j]
    requires forall i :: 0 <= i < |tags| ==> tags[i] !in p.known
    ensures forall i :: 0 <= i < |tags| ==> AllocateAll(p, tags).1[i] == p.pool[i % 6]
    decreases |tags|
  {
    if tags != [] {
      FreshTag(p, tags[0]);
      var p1 := Allocated(p, tags[0]).0;
      forall i | 0 <= i < |tags| - 1 ensures tags[1..][i] !in p1.known {
        assert tags[i + 1] != tags[0];
      }
      FreshTagsCycle(p1, tags[1..]);
      var cs := AllocateAll(p, tags).1;
      var rest := AllocateAll(p1, tags[1..]).1;
      assert p1.pool == p.pool[1..] + [p.pool[0]];
      assert cs == [p.pool[0]] + rest;
      forall i | 0 <= i < |tags| ensures cs[i] == p.pool[i % 6] {
        if i > 0 {
          assert cs[i] == rest[i - 1] == p1.pool[(i - 1) % 6];
          RotatedSlot(p.pool, i);
        }
      }
    }
  }

  /**
   * KNOWN_TAGS and LAST_USED, updated in place.  Both stay the allocator's
   * own state for the whole run.
   */
  class ColorAllocator {
    var knownTags: map<string, Color>
    var lastUsed: seq<Color>

    ghost predicate Valid()
      reads this
    {
      IsPool(lastUsed) && |lastUsed| == |RotationPool|
    }

    ghost function Snapshot(): Palette
      reads this
    {
      Palette(knownTags, lastUsed)
    }

    constructor ()
      ensures Valid() && Snapshot() == InitialPalette
    {
      knownTags := InitialTags;
      lastUsed := RotationPool;
    }

    /** allocate_color(tag). */
    method Allocate(tag: string) returns (color: Color)
      requires Valid()
      modifies this
      ensures Valid()
      ensures (Snapshot(), color) == Allocated(old(Snapshot()), tag)
    {
      ghost var before := Snapshot();
      assert lastUsed != [] by {
        PoolShape(lastUsed, Red);
      }
      if tag !in knownTags {
        knownTags := knownTags[tag := lastUsed[0]];
      }
      color := knownTags[tag];
      if color in lastUsed {
        lastUsed := RemoveFirst(lastUsed, color);
        lastUsed := lastUsed + [color];
      }
      assert (Snapshot(), color) == Allocated(before, tag);
      AllocatedKeepsPool(before, tag);
    }
  }
}
