/** Python's `str.replace(old, new)` (all occurrences, left to right, without
    overlap) for a non-empty `old`, with `str.split(sep)` and `sep.join(...)`
    as its independent reference: `s.replace(o, n) == n.join(s.split(o))`. */
module TextReplace {
  import opened Wrappers

  predicate OccursAt(s: string, t: string, i: nat) {
    i + |t| <= |s| && s[i..i + |t|] == t
  }

  /** `str.find`: the first position at which `sep` occurs. */
  function Find(s: string, sep: string): (p: Option<nat>)
    requires |sep| > 0
    ensures p.Some? ==> OccursAt(s, sep, p.value)
    ensures p.Some? ==> forall q: nat | q < p.value :: !OccursAt(s, sep, q)
    ensures p.None? ==> forall q: nat :: !OccursAt(s, sep, q)
    decreases |s|
  {
    if |s| < |sep| then None
    else if s[..|sep|] == sep then Some(0)
    else match Find(s[1..], sep)
      case None => (ShiftOccurs(s, sep); None)
      case Some(p) => (ShiftOccurs(s, sep); Some(p + 1))
  }

  lemma {:induction false} ShiftOccurs(s: string, sep: string)
    requires |s| > 0
    ensures forall q: nat | q > 0 :: OccursAt(s, sep, q) <==> OccursAt(s[1..], sep, q - 1)
  {
  }

  /** `s.replace(pattern, replacement)`: every occurrence is replaced, so the
      result is the pieces between occurrences joined with the replacement. */
  function Replace(s: string, pattern: string, replacement: string): (r: string)
    requires |pattern| > 0
    ensures r == Join(Split(s, pattern), replacement)
    decreases |s|
  {
    if |s| < |pattern| then
      assert Find(s, pattern).None?;
      s
    else if s[..|pattern|] == pattern then
      SplitAtStart(s, pattern);
      replacement + Replace(s[|pattern|..], pattern, replacement)
    else
      SplitPastFirst(s, pattern, replacement);
      [s[0]] + Replace(s[1..], pattern, replacement)
  }

  /** `s.split(sep)`: the pieces between the occurrences `Find` picks one after another. */
  function Split(s: string, sep: string): (pieces: seq<string>)
    requires |sep| > 0
    ensures |pieces| > 0
    ensures forall k | 0 <= k < |pieces| :: Find(pieces[k], sep).None?
    decreases |s|
  {
    match Find(s, sep)
    case None => [s]
    case Some(p) =>
      PrefixFree(s, sep, p);
      [s[..p]] + Split(s[p + |sep|..], sep)
  }

  /** A prefix of `s` that stops before the first occurrence of `sep` holds none. */
  lemma {:induction false} PrefixFree(s: string, sep: string, p: nat)
    requires |sep| > 0 && p <= |s|
    requires forall q: nat | q < p :: !OccursAt(s, sep, q)
    ensures forall q: nat :: !OccursAt(s[..p], sep, q)
  {
    forall q: nat | OccursAt(s[..p], sep, q) ensures false {
      assert s[..p][q..q + |sep|] == s[q..q + |sep|];
      assert OccursAt(s, sep, q);
    }
  }

  /** `sep.join(pieces)`. */
  function Join(pieces: seq<string>, sep: string): string
    requires |pieces| > 0
  {
    if |pieces| == 1 then pieces[0] else pieces[0] + sep + Join(pieces[1..], sep)
  }

  /** Splitting at `sep` and joining with `sep` gives the text back. */
  lemma {:induction false} JoinSplit(s: string, sep: string)
    requires |sep| > 0
    ensures Join(Split(s, sep), sep) == s
    decreases |s|
  {
    match Find(s, sep)
    case None =>
    case Some(p) =>
      var rest := s[p + |sep|..];
      JoinSplit(rest, sep);
      assert s == s[..p] + sep + rest by {
        assert s[p..p + |sep|] == sep;
        assert s == s[..p] + s[p..p + |sep|] + rest;
      }
  }

  lemma {:induction false} SplitAtStart(s: string, sep: string)
    requires 0 < |sep| <= |s| && s[..|sep|] == sep
    ensures Split(s, sep) == [[]] + Split(s[|sep|..], sep)
  {
  }

  /** When `s` does not start with the pattern, its first character belongs to
      the first piece, on both sides of the equation. */
  lemma {:induction false} SplitPastFirst(s: string, pattern: string, replacement: string)
    requires 0 < |pattern| <= |s| && s[..|pattern|] != pattern
    ensures Join(Split(s, pattern), replacement) == [s[0]] + Join(Split(s[1..], pattern), replacement)
  {
    match Find(s[1..], pattern)
    case None =>
      FindShiftNone(s, pattern);
      SplitWhole(s, pattern);
      SplitWhole(s[1..], pattern);
      assert [s[0]] + s[1..] == s;
    case Some(p) =>
      JoinPastFirst(s, pattern, replacement, p);
  }

  lemma {:induction false} JoinPastFirst(s: string, pattern: string, replacement: string, p: nat)
    requires 0 < |pattern| <= |s| && s[..|pattern|] != pattern
    requires Find(s[1..], pattern) == Some(p)
    ensures Join(Split(s, pattern), replacement) == [s[0]] + Join(Split(s[1..], pattern), replacement)
  {
    SplitShift(s, pattern, p);
    var pieces := Split(s[p + 1 + |pattern|..], pattern);
    var first := s[..p + 1];
    var shifted := s[1..][..p];
    assert first == [s[0]] + shifted;
    JoinCons(first, pieces, replacement);
    JoinCons(shifted, pieces, replacement);
    Regroup([s[0]], shifted, replacement, Join(pieces, replacement));
  }

  lemma Regroup(a: string, b: string, c: string, d: string)
    ensures a + b + c + d == a + (b + c + d)
  {
  }

  /** The pieces of `s` and of `s[1..]` share everything after the first occurrence. */
  lemma {:induction false} SplitShift(s: string, pattern: string, p: nat)
    requires 0 < |pattern| <= |s| && s[..|pattern|] != pattern
    requires Find(s[1..], pattern) == Some(p)
    ensures p + 1 + |pattern| <= |s|
    ensures Split(s, pattern) == [s[..p + 1]] + Split(s[p + 1 + |pattern|..], pattern)
    ensures Split(s[1..], pattern) == [s[1..][..p]] + Split(s[p + 1 + |pattern|..], pattern)
  {
    FindShift(s, pattern, p);
    SplitAt(s, pattern, p + 1);
    SplitAt(s[1..], pattern, p);
    assert s[1..][p + |pattern|..] == s[p + 1 + |pattern|..];
  }

  /** One step of `Split` once the first occurrence is known. */
  lemma {:induction false} SplitAt(s: string, sep: string, p: nat)
    requires |sep| > 0
    requires Find(s, sep) == Some(p)
    ensures p + |sep| <= |s|
    ensures Split(s, sep) == [s[..p]] + Split(s[p + |sep|..], sep)
  {
  }

  /** Without an occurrence in `s[1..]`, and none at the start, `s` has none. */
  lemma {:induction false} FindShiftNone(s: string, pattern: string)
    requires 0 < |pattern| <= |s| && s[..|pattern|] != pattern
    requires Find(s[1..], pattern).None?
    ensures Find(s, pattern).None?
  {
  }

  /** A text without the separator is its own single piece. */
  lemma {:induction false} SplitWhole(s: string, sep: string)
    requires |sep| > 0 && Find(s, sep).None?
    ensures Split(s, sep) == [s]
  {
  }

  /** The first occurrence in `s[1..]` is the first occurrence in `s`, one further on. */
  lemma {:induction false} FindShift(s: string, pattern: string, p: nat)
    requires 0 < |pattern| <= |s| && s[..|pattern|] != pattern
    requires Find(s[1..], pattern) == Some(p)
    ensures Find(s, pattern) == Some(p + 1)
  {
  }

  lemma {:induction false} JoinCons(first: string, pieces: seq<string>, sep: string)
    requires |pieces| > 0
    ensures Join([first] + pieces, sep) == first + sep + Join(pieces, sep)
  {
    assert ([first] + pieces)[1..] == pieces;
  }

  /** A text without `pattern` is left as it is. */
  lemma {:induction false} NoOccurrenceReplace(s: string, pattern: string, replacement: string)
    requires |pattern| > 0
    requires forall q: nat :: !OccursAt(s, pattern, q)
    ensures Replace(s, pattern, replacement) == s
    decreases |s|
  {
    if |s| >= |pattern| {
      assert !OccursAt(s, pattern, 0);
      ShiftOccurs(s, pattern);
      forall q: nat ensures !OccursAt(s[1..], pattern, q) {
        assert !OccursAt(s, pattern, q + 1);
      }
      NoOccurrenceReplace(s[1..], pattern, replacement);
    }
  }
}
