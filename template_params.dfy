/** Placeholder extraction of `get_properties_template_params`:
    `re.findall(r'\{\{\s*([a-zA-Z0-9_]+)\s*\}\}', source)` followed by `set(...)`. */
module TemplateParams {
  import opened Wrappers
  import opened Chars
  import opened TextReplace

  // ---------------------------------------------------------------------------
  // The reference meaning: a plain variable tag written out as text

  predicate IsBlank(t: string) {
    forall k | 0 <= k < |t| :: IsSpace(t[k])
  }

  predicate IsName(t: string) {
    |t| > 0 && forall k | 0 <= k < |t| :: IsWordChar(t[k])
  }

  /** The text `{{`, leading blanks, the name, trailing blanks, `}}`. */
  function Tag(lead: string, name: string, trail: string): string {
    "{{" + lead + name + trail + "}}"
  }

  /** `name` is written in `s` as a plain variable tag somewhere. */
  ghost predicate HasPlainTag(s: string, name: string) {
    IsName(name) &&
    exists lead, trail, i | IsBlank(lead) && IsBlank(trail) :: OccursAt(s, Tag(lead, name, trail), i)
  }

  // ---------------------------------------------------------------------------
  // The scanner

  /** End of the run of `\s` characters that starts at `i` (greedy `\s*`). */
  function BlankEnd(s: string, i: nat): (j: nat)
    requires i <= |s|
    ensures i <= j <= |s|
    ensures forall k | i <= k < j :: IsSpace(s[k])
    ensures j < |s| ==> !IsSpace(s[j])
    decreases |s| - i
  {
    if i < |s| && IsSpace(s[i]) then BlankEnd(s, i + 1) else i
  }

  /** End of the run of word characters that starts at `i` (greedy `[a-zA-Z0-9_]+`). */
  function NameEnd(s: string, i: nat): (j: nat)
    requires i <= |s|
    ensures i <= j <= |s|
    ensures forall k | i <= k < j :: IsWordChar(s[k])
    ensures j < |s| ==> !IsWordChar(s[j])
    decreases |s| - i
  {
    if i < |s| && IsWordChar(s[i]) then NameEnd(s, i + 1) else i
  }

  datatype Match = Match(name: string, end: nat)

  /** The pattern tried at position `i`. The classes `\s`, `[a-zA-Z0-9_]`, `{` and `}`
      are disjoint, so backtracking into a shorter run can never succeed where the
      greedy run failed: the match, if any, is the one built from maximal runs. */
  function MatchAt(s: string, i: nat): (m: Option<Match>)
    ensures m.Some? ==> i + 5 <= m.value.end <= |s|
    ensures m.Some? ==> IsName(m.value.name)
  {
    if i + 2 <= |s| && s[i] == '{' && s[i + 1] == '{' then
      var a := BlankEnd(s, i + 2);
      var b := NameEnd(s, a);
      var c := BlankEnd(s, b);
      if a < b && c + 2 <= |s| && s[c] == '}' && s[c + 1] == '}' then Some(Match(s[a..b], c + 2))
      else None
    else None
  }

  /** `re.findall` from position `i`: left to right, resuming after each match. */
  function FindAll(s: string, i: nat): (names: seq<string>)
    requires i <= |s|
    ensures forall k | 0 <= k < |names| :: IsName(names[k])
    decreases |s| - i
  {
    if i == |s| then []
    else match MatchAt(s, i)
      case Some(m) => [m.name] + FindAll(s, m.end)
      case None => FindAll(s, i + 1)
  }

  /** `set(re.findall(...))`: the distinct placeholder names of a template. */
  function Parameters(source: string): (names: set<string>)
    ensures forall n | n in names :: IsName(n)
  {
    set n | n in FindAll(source, 0)
  }

  /** The tool's answer: an error when the stored script cannot be read
      (`None` stands for any exception of `get_script` or of the lookup of
      `['script']['source']`), otherwise the parameter names. */
  datatype ParamsOutcome = FetchError | Found(parameters: set<string>)

  function GetTemplateParams(script: Option<string>): (r: ParamsOutcome)
    ensures r.FetchError? <==> script.None?
    ensures r.Found? ==> forall n :: n in r.parameters <==> HasPlainTag(script.value, n)
  {
    match script
    case None => FetchError
    case Some(source) =>
      ParametersExact(source);
      Found(Parameters(source))
  }

  // ---------------------------------------------------------------------------
  // Proofs

  /** A match at `i` is a plain variable tag written at `i`, and the match
      ends where the tag ends. */
  lemma {:induction false} MatchIsTag(s: string, i: nat)
    requires MatchAt(s, i).Some?
    ensures exists lead, trail | IsBlank(lead) && IsBlank(trail) ::
      && OccursAt(s, Tag(lead, MatchAt(s, i).value.name, trail), i)
      && MatchAt(s, i).value.end == i + |Tag(lead, MatchAt(s, i).value.name, trail)|
    ensures HasPlainTag(s, MatchAt(s, i).value.name)
  {
    var a := BlankEnd(s, i + 2);
    var b := NameEnd(s, a);
    var c := BlankEnd(s, b);
    var lead, name, trail := s[i + 2..a], s[a..b], s[b..c];
    assert MatchAt(s, i).value == Match(name, c + 2);
    assert IsBlank(lead) && IsBlank(trail);
    PiecesAreTag(s, i, a, b, c);
    assert |Tag(lead, name, trail)| == c + 2 - i;
    TagWitness(s, lead, name, trail, i);
  }

  /** Text made of `{{`, blanks, a name, blanks and `}}` is a tag. */
  lemma {:induction false} PiecesAreTag(s: string, i: nat, a: nat, b: nat, c: nat)
    requires i + 2 <= a <= b <= c && c + 2 <= |s|
    requires s[i] == '{' && s[i + 1] == '{' && s[c] == '}' && s[c + 1] == '}'
    ensures OccursAt(s, Tag(s[i + 2..a], s[a..b], s[b..c]), i)
  {
    assert s[i..i + 2] == "{{" && s[c..c + 2] == "}}";
    SliceSplit(s, i, i + 2, c + 2);
    SliceSplit(s, i + 2, a, c + 2);
    SliceSplit(s, a, b, c + 2);
    SliceSplit(s, b, c, c + 2);
  }

  lemma {:induction false} TagWitness(s: string, lead: string, name: string, trail: string, i: nat)
    requires IsBlank(lead) && IsName(name) && IsBlank(trail)
    requires OccursAt(s, Tag(lead, name, trail), i)
    ensures HasPlainTag(s, name)
  {
  }

  lemma {:induction false} SliceSplit(s: string, i: nat, j: nat, k: nat)
    requires i <= j <= k <= |s|
    ensures s[i..k] == s[i..j] + s[j..k]
  {
  }

  /** The pieces of a tag written at `i`, as slices of `s`. */
  lemma {:induction false} TagPieces(s: string, lead: string, name: string, trail: string, i: nat)
    requires OccursAt(s, Tag(lead, name, trail), i)
    ensures var a := i + 2 + |lead|; var b := a + |name|; var c := b + |trail|;
      && c + 2 <= |s| && s[i..i + 2] == "{{" && s[i + 2..a] == lead
      && s[a..b] == name && s[b..c] == trail && s[c..c + 2] == "}}"
  {
    var r := "{{" + lead;
    var q := r + name;
    var p := q + trail;
    var t := p + "}}";
    assert t == Tag(lead, name, trail);
    var a := i + 2 + |lead|;
    var b := a + |name|;
    var c := b + |trail|;
    PrefixAt(s, t, i, |p|);
    assert t[..|p|] == p;
    assert s[c..c + 2] == t[|p|..] == "}}";
    PrefixAt(s, p, i, |q|);
    assert p[..|q|] == q;
    assert s[b..c] == p[|q|..] == trail;
    PrefixAt(s, q, i, |r|);
    assert q[..|r|] == r;
    assert s[a..b] == q[|r|..] == name;
    PrefixAt(s, r, i, 2);
    assert r[..2] == "{{";
    assert s[i + 2..a] == r[2..] == lead;
  }

  /** Splitting a text written at `i` into its first `m` characters and the rest. */
  lemma {:induction false} PrefixAt(s: string, t: string, i: nat, m: nat)
    requires OccursAt(s, t, i) && m <= |t|
    ensures OccursAt(s, t[..m], i)
    ensures s[i + m..i + |t|] == t[m..]
  {
  }

  /** A plain variable tag written at `i` is what the pattern matches at `i`. */
  lemma {:induction false} TagIsMatch(s: string, lead: string, name: string, trail: string, i: nat)
    requires IsBlank(lead) && IsBlank(trail) && IsName(name)
    requires OccursAt(s, Tag(lead, name, trail), i)
    ensures MatchAt(s, i).Some? && MatchAt(s, i).value.name == name
  {
    TagPieces(s, lead, name, trail, i);
    var a := i + 2 + |lead|;
    var b := a + |name|;
    var c := b + |trail|;
    assert s[i] == s[i..i + 2][0] && s[i + 1] == s[i..i + 2][1];
    assert s[c] == s[c..c + 2][0] && s[c + 1] == s[c..c + 2][1];
    BlankSlice(s, i + 2, a);
    NameSlice(s, a, b);
    BlankSlice(s, b, c);
    assert s[a] == s[a..b][0];
    BlankEndIs(s, i + 2, a);
    NameEndIs(s, a, b);
    if b < c {
      assert s[b] == s[b..c][0];
    }
    BlankEndIs(s, b, c);
  }

  lemma {:induction false} BlankSlice(s: string, lo: nat, hi: nat)
    requires lo <= hi <= |s| && IsBlank(s[lo..hi])
    ensures forall k | lo <= k < hi :: IsSpace(s[k])
  {
  }

  lemma {:induction false} NameSlice(s: string, lo: nat, hi: nat)
    requires lo <= hi <= |s| && IsName(s[lo..hi])
    ensures forall k | lo <= k < hi :: IsWordChar(s[k])
  {
    forall k | lo <= k < hi ensures IsWordChar(s[k]) {
      assert s[k] == s[lo..hi][k - lo];
    }
  }

  lemma BlankEndIs(s: string, i: nat, j: nat)
    requires i <= j <= |s|
    requires forall k | i <= k < j :: IsSpace(s[k])
    requires j < |s| ==> !IsSpace(s[j])
    ensures BlankEnd(s, i) == j
  {
  }

  lemma NameEndIs(s: string, i: nat, j: nat)
    requires i <= j <= |s|
    requires forall k | i <= k < j :: IsWordChar(s[k])
    requires j < |s| ==> !IsWordChar(s[j])
    ensures NameEnd(s, i) == j
  {
  }

  /** Matches never overlap a later tag opening: a match starting before the
      start of another match also ends before it, because `{` occurs in a match
      only as its first two characters. */
  lemma {:induction false} NoStraddle(s: string, k: nat, i: nat)
    requires k < i
    requires MatchAt(s, k).Some? && MatchAt(s, i).Some?
    ensures MatchAt(s, k).value.end <= i
  {
  }

  /** Scanning from `k` finds every match that starts at or after `k`. */
  lemma {:induction false} FindAllComplete(s: string, k: nat, i: nat)
    requires k <= i < |s|
    requires MatchAt(s, i).Some?
    ensures MatchAt(s, i).value.name in FindAll(s, k)
    decreases |s| - k
  {
    FindAllStep(s, k);
    if MatchAt(s, k).Some? {
      if k < i {
        NoStraddle(s, k, i);
        FindAllComplete(s, MatchAt(s, k).value.end, i);
      }
    } else {
      FindAllComplete(s, k + 1, i);
    }
  }

  /** One step of the scan from a position inside the text. */
  lemma {:induction false} FindAllStep(s: string, k: nat)
    requires k < |s|
    ensures MatchAt(s, k).Some? ==>
      FindAll(s, k) == [MatchAt(s, k).value.name] + FindAll(s, MatchAt(s, k).value.end)
    ensures MatchAt(s, k).None? ==> FindAll(s, k) == FindAll(s, k + 1)
  {
  }

  /** Everything the scan reports is matched at some position. */
  lemma {:induction false} FindAllSound(s: string, k: nat, n: string)
    requires k <= |s|
    requires n in FindAll(s, k)
    ensures exists i | k <= i < |s| :: MatchAt(s, i).Some? && MatchAt(s, i).value.name == n
    decreases |s| - k
  {
    if k < |s| {
      match MatchAt(s, k)
      case Some(m) =>
        if n != m.name {
          FindAllSound(s, m.end, n);
        }
      case None =>
        FindAllSound(s, k + 1, n);
    }
  }

  /** The extracted names are exactly the names written as plain variable tags.
      Section, inverted-section and closing tags (`{{#x}}`, `{{^x}}`, `{{/x}}`)
      contribute nothing, and each name is reported once. */
  lemma ParametersExact(source: string)
    ensures forall n :: n in Parameters(source) <==> HasPlainTag(source, n)
  {
    forall n
      ensures n in Parameters(source) <==> HasPlainTag(source, n)
    {
      if n in Parameters(source) {
        FindAllSound(source, 0, n);
        var i :| 0 <= i < |source| && MatchAt(source, i).Some? && MatchAt(source, i).value.name == n;
        MatchIsTag(source, i);
      }
      if HasPlainTag(source, n) {
        var lead, trail, i :| IsBlank(lead) && IsBlank(trail) && OccursAt(source, Tag(lead, n, trail), i);
        TagIsMatch(source, lead, n, trail, i);
        FindAllComplete(source, 0, i);
      }
    }
  }
}
