/** The Python string operations the analysers rely on: `str.isspace`,
    `str.strip`, `str.split()`, `str.lower`, `re.sub(r'\s+', ' ', ...)`,
    `re.findall(r'\b\w+\b', ...)`, `re.split(r'[.!?]+', ...)`, the `in`
    substring test and `str.join`. Letters, digits and case are ASCII only. */
module TextOps {

  /** The characters for which Python's `str.isspace()` holds; `str.split()`,
      `str.strip()` and the regex class `\s` all use this set. */
  predicate IsSpace(c: char) {
    var n := c as int;
    n == 0x20 || 0x09 <= n <= 0x0D || 0x1C <= n <= 0x1F || n == 0x85 || n == 0xA0 ||
    n == 0x1680 || 0x2000 <= n <= 0x200A || n == 0x2028 || n == 0x2029 ||
    n == 0x202F || n == 0x205F || n == 0x3000
  }

  predicate IsLetter(c: char) {
    'a' <= c <= 'z' || 'A' <= c <= 'Z'
  }

  /** The regex class `\w`. */
  predicate IsWordChar(c: char) {
    IsLetter(c) || '0' <= c <= '9' || c == '_'
  }

  predicate IsNonWord(c: char) {
    !IsWordChar(c)
  }

  /** The regex class `[.!?]`. */
  predicate IsTerminator(c: char) {
    c == '.' || c == '!' || c == '?'
  }

  /** `str.isalpha()`: non-empty and letters only. */
  predicate IsAlpha(s: string) {
    |s| > 0 && forall i :: 0 <= i < |s| ==> IsLetter(s[i])
  }

  function LowerChar(c: char): char {
    if 'A' <= c <= 'Z' then (c as int + 32) as char else c
  }

  /** `str.lower()`. */
  function Lower(s: string): string {
    seq(|s|, i requires 0 <= i < |s| => LowerChar(s[i]))
  }

  predicate NoneOf(s: string, isSep: char -> bool) {
    forall i :: 0 <= i < |s| ==> !isSep(s[i])
  }

  // ----- sequence prefixes -----

  /** Growing a prefix by one element, as a loop over a list does. */
  lemma PrefixGrows<T>(xs: seq<T>, i: nat)
    requires i < |xs|
    ensures xs[..i + 1] == xs[..i] + [xs[i]]
  {
  }

  lemma PrefixWhole<T>(xs: seq<T>)
    ensures xs[..|xs|] == xs
  {
  }

  // ----- strip -----

  function StripLeft(s: string): (r: string)
    ensures |r| <= |s|
    ensures r == [] || !IsSpace(r[0])
    ensures forall i :: 0 <= i < |s| - |r| ==> IsSpace(s[i])
  {
    if s != [] && IsSpace(s[0]) then StripLeft(s[1..]) else s
  }

  function StripRight(s: string): (r: string)
    ensures |r| <= |s|
    ensures r == [] || !IsSpace(r[|r| - 1])
    ensures forall i :: |r| <= i < |s| ==> IsSpace(s[i])
  {
    if s != [] && IsSpace(s[|s| - 1]) then StripRight(s[..|s| - 1]) else s
  }

  /** Stripping on the left keeps a suffix. */
  lemma {:induction false} StripLeftSuffix(s: string)
    ensures StripLeft(s) == s[|s| - |StripLeft(s)|..]
    decreases |s|
  {
    if s != [] && IsSpace(s[0]) {
      StripLeftSuffix(s[1..]);
    }
  }

  /** Stripping on the right keeps a prefix. */
  lemma {:induction false} StripRightPrefix(s: string)
    ensures StripRight(s) == s[..|StripRight(s)|]
    decreases |s|
  {
    if s != [] && IsSpace(s[|s| - 1]) {
      StripRightPrefix(s[..|s| - 1]);
    }
  }

  /** `str.strip()`: the longest middle part with no white space at either end. */
  function Strip(s: string): string {
    StripRight(StripLeft(s))
  }

  /** Stripping leaves nothing exactly when the text is white space only, so
      the analysers' guard `not text or len(text.strip()) < 1` means "blank". */
  lemma StripEmptyIffBlank(s: string)
    ensures Strip(s) == [] <==> forall i :: 0 <= i < |s| ==> IsSpace(s[i])
  {
    var l := StripLeft(s);
    StripLeftSuffix(s);
    StripRightPrefix(l);
    if Strip(s) == [] {
      forall i | 0 <= i < |s| ensures IsSpace(s[i]) {
        if i >= |s| - |l| {
          assert l[i - (|s| - |l|)] == s[i];
        }
      }
    } else {
      var r := Strip(s);
      assert r[0] == l[0] == s[|s| - |l|];
    }
  }

  // ----- splitting on runs of separators -----

  /** Length of the leading run of non-separator characters. */
  function LeadingRun(s: string, isSep: char -> bool): (n: nat)
    ensures n <= |s|
    ensures forall i :: 0 <= i < n ==> !isSep(s[i])
    ensures n < |s| ==> isSep(s[n])
  {
    if s == [] || isSep(s[0]) then 0 else 1 + LeadingRun(s[1..], isSep)
  }

  /** The maximal runs of non-separator characters, in order: `str.split()`
      for white space, `re.findall(r'\b\w+\b', ...)` for non-word characters,
      and `re.split(r'[.!?]+', ...)` without its empty pieces. */
  function Pieces(s: string, isSep: char -> bool): (r: seq<string>)
    ensures forall k :: 0 <= k < |r| ==> r[k] != [] && NoneOf(r[k], isSep)
    decreases |s|
  {
    if s == [] then []
    else if isSep(s[0]) then Pieces(s[1..], isSep)
    else
      var n := LeadingRun(s, isSep);
      [s[..n]] + Pieces(s[n..], isSep)
  }

  /** A non-empty run without separators is a single piece, itself. */
  lemma PiecesOfRun(s: string, isSep: char -> bool)
    requires s != [] && NoneOf(s, isSep)
    ensures Pieces(s, isSep) == [s]
  {
    assert LeadingRun(s, isSep) == |s|;
    assert s[..|s|] == s && s[|s|..] == [];
  }

  /** A text made only of separators has no pieces. */
  lemma {:induction false} PiecesOfSeparators(s: string, isSep: char -> bool)
    requires forall i :: 0 <= i < |s| ==> isSep(s[i])
    ensures Pieces(s, isSep) == []
    decreases |s|
  {
    if s != [] {
      PiecesOfSeparators(s[1..], isSep);
    }
  }

  /** A separator (or an end) at the seam means no piece straddles it. */
  predicate SeparatedAt(s: string, t: string, isSep: char -> bool) {
    s == [] || t == [] || isSep(t[0]) || isSep(s[|s| - 1])
  }

  lemma SeparatedAtSuffix(s: string, t: string, isSep: char -> bool, k: nat)
    requires SeparatedAt(s, t, isSep) && k <= |s|
    ensures SeparatedAt(s[k..], t, isSep)
  {
    if s[k..] != [] {
      assert s[k..][|s[k..]| - 1] == s[|s| - 1];
    }
  }

  lemma {:induction false} LeadingRunAppend(s: string, t: string, isSep: char -> bool)
    requires SeparatedAt(s, t, isSep) && s != [] && !isSep(s[0])
    ensures LeadingRun(s + t, isSep) == LeadingRun(s, isSep)
    decreases |s|
  {
    assert (s + t)[0] == s[0];
    assert (s + t)[1..] == s[1..] + t;
    if |s| == 1 {
      assert s[1..] + t == t;
    } else if isSep(s[1]) {
      assert (s + t)[1] == s[1];
    } else {
      SeparatedAtSuffix(s, t, isSep, 1);
      LeadingRunAppend(s[1..], t, isSep);
    }
  }

  /** Splitting a concatenation whose seam is a separator splits each part. */
  lemma {:induction false} PiecesAppend(s: string, t: string, isSep: char -> bool)
    requires SeparatedAt(s, t, isSep)
    ensures Pieces(s + t, isSep) == Pieces(s, isSep) + Pieces(t, isSep)
    decreases |s|
  {
    if s == [] {
      assert s + t == t;
    } else if isSep(s[0]) {
      assert (s + t)[1..] == s[1..] + t;
      SeparatedAtSuffix(s, t, isSep, 1);
      PiecesAppend(s[1..], t, isSep);
    } else {
      var n := LeadingRun(s, isSep);
      LeadingRunAppend(s, t, isSep);
      assert (s + t)[..n] == s[..n];
      assert (s + t)[n..] == s[n..] + t;
      SeparatedAtSuffix(s, t, isSep, n);
      PiecesAppend(s[n..], t, isSep);
    }
  }

  /** `str.split()` with no argument. */
  function Words(s: string): seq<string> {
    Pieces(s, IsSpace)
  }

  /** `len(s.split())`. */
  function WordCount(s: string): nat {
    |Words(s)|
  }

  /** Word counts add up across a seam of white space. */
  lemma WordCountAppend(s: string, t: string)
    requires SeparatedAt(s, t, IsSpace)
    ensures WordCount(s + t) == WordCount(s) + WordCount(t)
  {
    PiecesAppend(s, t, IsSpace);
  }

  /** `re.findall(r'\b\w+\b', s)`: the maximal runs of word characters. */
  function Tokens(s: string): seq<string> {
    Pieces(s, IsNonWord)
  }

  // ----- white space collapsing -----

  /** Length of the leading run of white space. */
  function SpaceRun(s: string): (n: nat)
    ensures n <= |s|
    ensures forall i :: 0 <= i < n ==> IsSpace(s[i])
    ensures n < |s| ==> !IsSpace(s[n])
  {
    if s != [] && IsSpace(s[0]) then 1 + SpaceRun(s[1..]) else 0
  }

  /** No white space other than single blanks. */
  predicate SingleSpaced(s: string) {
    (forall i :: 0 <= i < |s| && IsSpace(s[i]) ==> s[i] == ' ') &&
    (forall i :: 0 <= i < |s| - 1 ==> !(s[i] == ' ' && s[i + 1] == ' '))
  }

  /** `re.sub(r'\s+', ' ', s)`: every run of white space becomes one blank. */
  function CollapseSpaces(s: string): (r: string)
    ensures SingleSpaced(r)
    ensures r == [] <==> s == []
    ensures r != [] ==> (r[0] == ' ' <==> IsSpace(s[0]))
    decreases |s|
  {
    if s == [] then []
    else if IsSpace(s[0]) then
      var n := SpaceRun(s);
      var rest := CollapseSpaces(s[n..]);
      assert rest != [] ==> rest[0] != ' ';
      [' '] + rest
    else
      [s[0]] + CollapseSpaces(s[1..])
  }

  lemma SingleSpacedSlice(s: string, a: nat, b: nat)
    requires SingleSpaced(s) && a <= b <= |s|
    ensures SingleSpaced(s[a..b])
  {
    var t := s[a..b];
    forall i | 0 <= i < |t| - 1 ensures !(t[i] == ' ' && t[i + 1] == ' ') {
      assert t[i] == s[a + i] && t[i + 1] == s[a + i + 1];
    }
    forall i | 0 <= i < |t| && IsSpace(t[i]) ensures t[i] == ' ' {
      assert t[i] == s[a + i];
    }
  }

  lemma SingleSpacedStrip(s: string)
    requires SingleSpaced(s)
    ensures SingleSpaced(Strip(s))
  {
    var l := StripLeft(s);
    StripLeftSuffix(s);
    StripRightPrefix(l);
    SingleSpacedSlice(s, |s| - |l|, |s|);
    SingleSpacedSlice(l, 0, |StripRight(l)|);
  }

  lemma {:induction false} PiecesSingleSpaced(s: string, isSep: char -> bool)
    requires SingleSpaced(s)
    ensures forall k :: 0 <= k < |Pieces(s, isSep)| ==> SingleSpaced(Pieces(s, isSep)[k])
    decreases |s|
  {
    if s == [] {
    } else if isSep(s[0]) {
      SingleSpacedSlice(s, 1, |s|);
      PiecesSingleSpaced(s[1..], isSep);
    } else {
      var n := LeadingRun(s, isSep);
      SingleSpacedSlice(s, 0, n);
      SingleSpacedSlice(s, n, |s|);
      PiecesSingleSpaced(s[n..], isSep);
    }
  }

  // ----- substring test and joining -----

  /** Python's `sub in s`. */
  function Contains(s: string, sub: string): bool
    decreases |s|
  {
    if |sub| > |s| then false
    else if s[..|sub|] == sub then true
    else Contains(s[1..], sub)
  }

  predicate OccursAt(s: string, sub: string, i: nat) {
    i + |sub| <= |s| && s[i..i + |sub|] == sub
  }

  /** `Contains` finds exactly the substrings that occur at some position. */
  lemma ContainsIffOccurs(s: string, sub: string)
    ensures Contains(s, sub) <==> exists i: nat :: OccursAt(s, sub, i)
  {
    if Contains(s, sub) {
      OccursWhenContains(s, sub);
    }
    if exists i: nat :: OccursAt(s, sub, i) {
      var i: nat :| OccursAt(s, sub, i);
      ContainsWhenOccurs(s, sub, i);
    }
  }

  lemma {:induction false} OccursWhenContains(s: string, sub: string)
    requires Contains(s, sub)
    ensures exists i: nat :: OccursAt(s, sub, i)
    decreases |s|
  {
    if s[..|sub|] == sub {
      assert OccursAt(s, sub, 0);
    } else {
      OccursWhenContains(s[1..], sub);
      var i: nat :| OccursAt(s[1..], sub, i);
      assert s[1..][i..i + |sub|] == s[i + 1..i + 1 + |sub|];
      assert OccursAt(s, sub, i + 1);
    }
  }

  lemma {:induction false} ContainsWhenOccurs(s: string, sub: string, i: nat)
    requires OccursAt(s, sub, i)
    ensures Contains(s, sub)
    decreases i
  {
    if i > 0 && s[..|sub|] != sub {
      assert s[1..][i - 1..i - 1 + |sub|] == s[i..i + |sub|];
      ContainsWhenOccurs(s[1..], sub, i - 1);
    }
  }

  lemma ContainsSelf(s: string)
    ensures Contains(s, s)
  {
    assert OccursAt(s, s, 0);
    ContainsIffOccurs(s, s);
  }

  /** Text found in s is still found once s is embedded in a larger text. */
  lemma ContainsWithin(s: string, sub: string, a: string, c: string)
    requires Contains(s, sub)
    ensures Contains(a + s + c, sub)
  {
    ContainsIffOccurs(s, sub);
    var i: nat :| OccursAt(s, sub, i);
    assert (a + s + c)[|a| + i..|a| + i + |sub|] == s[i..i + |sub|];
    assert OccursAt(a + s + c, sub, |a| + i);
    ContainsIffOccurs(a + s + c, sub);
  }

  /** Substring containment is transitive. */
  lemma ContainsTrans(s: string, m: string, sub: string)
    requires Contains(s, m) && Contains(m, sub)
    ensures Contains(s, sub)
  {
    ContainsIffOccurs(s, m);
    ContainsIffOccurs(m, sub);
    var i: nat :| OccursAt(s, m, i);
    var j: nat :| OccursAt(m, sub, j);
    forall k | 0 <= k < |sub| ensures s[i + j..i + j + |sub|][k] == sub[k] {
      assert sub[k] == m[j + k] == s[i + j + k];
    }
    assert OccursAt(s, sub, i + j);
    ContainsIffOccurs(s, sub);
  }

  // ----- counting a keyword with `re.findall` -----

  /** Position i of s holds a word character. */
  predicate WordAt(s: string, i: int) {
    0 <= i < |s| && IsWordChar(s[i])
  }

  /** `\b` holds before position i: a word character on exactly one side. */
  predicate Boundary(s: string, i: int) {
    WordAt(s, i - 1) != WordAt(s, i)
  }

  /** A match of `\b` + keyword + `\b` starts at i. */
  predicate BoundedAt(s: string, kw: string, i: nat) {
    OccursAt(s, kw, i) && Boundary(s, i) && Boundary(s, i + |kw|)
  }

  /** The matches the regex engine finds from position i on: it tries each
      position in turn and, after a match, resumes at its end. */
  function MatchesFrom(s: string, kw: string, i: nat): nat
    requires |kw| > 0
    decreases |s| - i
  {
    if i + |kw| > |s| then 0
    else if BoundedAt(s, kw, i) then 1 + MatchesFrom(s, kw, i + |kw|)
    else MatchesFrom(s, kw, i + 1)
  }

  /** `len(re.findall(r'\b' + re.escape(kw) + r'\b', s))`. */
  function BoundedMatches(s: string, kw: string): nat
    requires |kw| > 0
  {
    MatchesFrom(s, kw, 0)
  }

  /** Matches never overlap, so together they never cover more than the text. */
  lemma {:induction false} MatchesFit(s: string, kw: string, i: nat)
    requires |kw| > 0 && i <= |s|
    ensures MatchesFrom(s, kw, i) * |kw| <= |s| - i
    decreases |s| - i
  {
    var n := |kw|;
    if i + n > |s| {
      assert MatchesFrom(s, kw, i) == 0;
    } else if BoundedAt(s, kw, i) {
      MatchesFit(s, kw, i + n);
      OneMore(MatchesFrom(s, kw, i + n), n, |s| - i - n);
    } else {
      MatchesFit(s, kw, i + 1);
    }
  }

  lemma OneMore(m: nat, n: nat, room: nat)
    requires m * n <= room
    ensures (m + 1) * n <= room + n
  {
  }

  /** A keyword that does not occur in s is never counted. */
  lemma {:induction false} AbsentNotCounted(s: string, kw: string, i: nat)
    requires |kw| > 0 && !Contains(s, kw)
    ensures MatchesFrom(s, kw, i) == 0
    decreases |s| - i
  {
    ContainsIffOccurs(s, kw);
    if i + |kw| <= |s| {
      assert !OccursAt(s, kw, i);
      AbsentNotCounted(s, kw, i + 1);
    }
  }

  /** The sum over the keywords of their match counts. */
  function KeywordHits(s: string, keywords: seq<string>): nat
    requires forall k :: 0 <= k < |keywords| ==> |keywords[k]| > 0
  {
    if keywords == [] then 0
    else KeywordHits(s, keywords[..|keywords| - 1]) + BoundedMatches(s, keywords[|keywords| - 1])
  }

  /** The accumulating loop `score += len(re.findall(...))` over a keyword list. */
  method CountKeywordHits(s: string, keywords: seq<string>) returns (score: nat)
    requires forall k :: 0 <= k < |keywords| ==> |keywords[k]| > 0
    ensures score == KeywordHits(s, keywords)
  {
    score := 0;
    for j := 0 to |keywords|
      invariant score == KeywordHits(s, keywords[..j])
    {
      assert keywords[..j + 1][..j] == keywords[..j];
      score := score + BoundedMatches(s, keywords[j]);
    }
    assert keywords[..|keywords|] == keywords;
  }

  /** Each listed keyword contributes all its matches. */
  lemma {:induction false} KeywordHitsCover(s: string, keywords: seq<string>, k: string)
    requires forall j :: 0 <= j < |keywords| ==> |keywords[j]| > 0
    requires k in keywords
    ensures |k| > 0 && KeywordHits(s, keywords) >= BoundedMatches(s, k)
  {
    var init := keywords[..|keywords| - 1];
    if keywords[|keywords| - 1] != k {
      assert k in init;
      KeywordHitsCover(s, init, k);
    }
  }

  /** `sep.join(parts)`. */
  function Join(parts: seq<string>, sep: string): string
    decreases |parts|
  {
    if parts == [] then ""
    else if |parts| == 1 then parts[0]
    else parts[0] + sep + Join(parts[1..], sep)
  }

  /** Every part of a join occurs in it. */
  lemma {:induction false} JoinContains(parts: seq<string>, sep: string, i: nat)
    requires i < |parts|
    ensures Contains(Join(parts, sep), parts[i])
    decreases |parts|
  {
    if |parts| == 1 {
      ContainsSelf(parts[0]);
      assert Join(parts, sep) == [] + parts[0] + [];
      ContainsWithin(parts[0], parts[0], [], []);
    } else if i == 0 {
      ContainsSelf(parts[0]);
      ContainsWithin(parts[0], parts[0], [], sep + Join(parts[1..], sep));
      assert [] + parts[0] + (sep + Join(parts[1..], sep)) == Join(parts, sep);
    } else {
      JoinContains(parts[1..], sep, i - 1);
      ContainsWithin(Join(parts[1..], sep), parts[i], parts[0] + sep, []);
      assert parts[0] + sep + Join(parts[1..], sep) + [] == Join(parts, sep);
    }
  }

  /** Joining one more part appends the separator and that part. */
  lemma {:induction false} JoinSnoc(parts: seq<string>, sep: string, x: string)
    requires parts != []
    ensures Join(parts + [x], sep) == Join(parts, sep) + sep + x
    decreases |parts|
  {
    assert (parts + [x])[0] == parts[0];
    assert (parts + [x])[1..] == parts[1..] + [x];
    if |parts| > 1 {
      JoinSnoc(parts[1..], sep, x);
    }
  }

  /** A text with a character outside white space has at least one word. */
  lemma {:induction false} HasWord(s: string, i: nat)
    requires i < |s| && !IsSpace(s[i])
    ensures WordCount(s) >= 1
    decreases |s|
  {
    if IsSpace(s[0]) {
      HasWord(s[1..], i - 1);
    }
  }

  /** `s[:n]` with `n >= 0`. */
  function Prefix(s: string, n: nat): string {
    if |s| <= n then s else s[..n]
  }
}
