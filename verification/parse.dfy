/** Turning the generated review text into suggestions. The text is cut
    in front of every `ISSUE:`, `IMPROVEMENT:` and `CODE:` marker; each
    piece yields at most one suggestion, from the text after its `ISSUE:`. */
module Parse {
  import opened Text
  import opened Suggestions

  const IssueMarker: string := "ISSUE:"
  const ImprovementMarker: string := "IMPROVEMENT:"
  const CodeMarker: string := "CODE:"

  predicate MarkerAt(s: string, i: nat) {
    StartsAt(s, i, IssueMarker) || StartsAt(s, i, ImprovementMarker) || StartsAt(s, i, CodeMarker)
  }

  /** No marker starts anywhere in `sec` but possibly at its first character. */
  predicate Isolated(sec: string) {
    forall m :: 0 < m < |sec| ==> !MarkerAt(sec, m)
  }

  lemma IsolatedSlice(s: string, a: nat, b: nat)
    requires a <= b <= |s|
    requires forall m :: a < m < b ==> !MarkerAt(s, m)
    ensures Isolated(s[a..b])
  {
    forall m | 0 < m < b - a
      ensures !MarkerAt(s[a..b], m)
    {
      assert !MarkerAt(s, a + m);
      if StartsAt(s[a..b], m, IssueMarker) { StartsAtSlice(s, a, b, m, IssueMarker); }
      if StartsAt(s[a..b], m, ImprovementMarker) { StartsAtSlice(s, a, b, m, ImprovementMarker); }
      if StartsAt(s[a..b], m, CodeMarker) { StartsAtSlice(s, a, b, m, CodeMarker); }
    }
  }

  // ---------------------------------------------------------------------
  // Sections: `split(/(?=ISSUE:|IMPROVEMENT:|CODE:)/g)`

  /** Sections of `s[start..]`, markers having been ruled out strictly between
      `start` and `i`. A zero-width split never cuts at the very start of the
      text, so the first section may lack a marker. */
  function SectionsFrom(s: string, start: nat, i: nat): (secs: seq<string>)
    requires start < i <= |s|
    requires forall m :: start < m < i ==> !MarkerAt(s, m)
    ensures |secs| >= 1
    ensures Join(secs, "") == s[start..]
    ensures forall k :: 0 <= k < |secs| ==> |secs[k]| > 0 && Isolated(secs[k])
    ensures forall k :: 1 <= k < |secs| ==> MarkerAt(secs[k], 0)
    ensures StartsAt(secs[0], 0, IssueMarker) ==> StartsAt(s, start, IssueMarker)
    ensures MarkerAt(s, start) ==> MarkerAt(secs[0], 0)
    ensures IssueHeads(secs) <= (if StartsAt(s, start, IssueMarker) then 1 else 0) + IssueCount(s, i)
    decreases |s| - i
  {
    if i == |s| then
      IsolatedSlice(s, start, |s|);
      MarkerIsWhole(s, start, |s|);
      assert s[start..] == s[start..|s|];
      [s[start..]]
    else if MarkerAt(s, i) then
      var rest := SectionsFrom(s, i, i + 1);
      SectionThenRest(s, start, i, rest);
      [s[start..i]] + rest
    else
      assert IssueCount(s, i) >= IssueCount(s, i + 1);
      SectionsFrom(s, start, i + 1)
  }

  /** The section `s[start..i]` cut before the marker at `i`, followed by
      sections of `s[i..]` that each start with a marker, are sections of
      `s[start..]`. */
  lemma SectionThenRest(s: string, start: nat, i: nat, rest: seq<string>)
    requires start < i < |s| && MarkerAt(s, i)
    requires forall m :: start < m < i ==> !MarkerAt(s, m)
    requires |rest| >= 1 && Join(rest, "") == s[i..]
    requires forall k :: 0 <= k < |rest| ==> |rest[k]| > 0 && Isolated(rest[k]) && MarkerAt(rest[k], 0)
    requires IssueHeads(rest) <= (if StartsAt(s, i, IssueMarker) then 1 else 0) + IssueCount(s, i + 1)
    ensures var secs := [s[start..i]] + rest;
      && Join(secs, "") == s[start..]
      && (forall k :: 0 <= k < |secs| ==> |secs[k]| > 0 && Isolated(secs[k]))
      && (forall k :: 1 <= k < |secs| ==> MarkerAt(secs[k], 0))
      && (StartsAt(secs[0], 0, IssueMarker) ==> StartsAt(s, start, IssueMarker))
      && (MarkerAt(s, start) ==> MarkerAt(secs[0], 0))
      && IssueHeads(secs) <= (if StartsAt(s, start, IssueMarker) then 1 else 0) + IssueCount(s, i)
  {
    IsolatedSlice(s, start, i);
    assert StartsAt(s[start..i], 0, IssueMarker) ==> StartsAt(s, start, IssueMarker) by {
      if StartsAt(s[start..i], 0, IssueMarker) { StartsAtSlice(s, start, i, 0, IssueMarker); }
    }
    MarkerIsWhole(s, start, i);
    var secs := [s[start..i]] + rest;
    assert s[start..] == s[start..i] + s[i..];
    assert secs[1..] == rest;
    assert IssueHeads(secs) == (if StartsAt(secs[0], 0, IssueMarker) then 1 else 0) + IssueHeads(rest);
    assert IssueCount(s, i) == (if StartsAt(s, i, IssueMarker) then 1 else 0) + IssueCount(s, i + 1);
  }

  /** No marker starts inside another, so a marker at `a` lies whole
      before the next position `b` that starts one (or the end of the text). */
  lemma MarkerIsWhole(s: string, a: nat, b: nat)
    requires a < b <= |s|
    requires forall m :: a < m < b ==> !MarkerAt(s, m)
    requires b == |s| || MarkerAt(s, b)
    ensures MarkerAt(s, a) ==> MarkerAt(s[a..b], 0)
  {
    forall k | k in [IssueMarker, ImprovementMarker, CodeMarker] && StartsAt(s, a, k)
      ensures StartsAt(s[a..b], 0, k)
    {
      if b < a + |k| {
        assert s[b] == s[a..a + |k|][b - a] == k[b - a];
        assert s[b] == 'I' || s[b] == 'C' by {
          FirstMarkerChar(s, b);
        }
        assert false;
      }
      assert s[a..b][0..|k|] == s[a..a + |k|];
    }
  }

  lemma FirstMarkerChar(s: string, b: nat)
    requires MarkerAt(s, b)
    ensures s[b] == 'I' || s[b] == 'C'
  {
    if StartsAt(s, b, IssueMarker) { assert s[b] == s[b..b + |IssueMarker|][0]; }
    else if StartsAt(s, b, ImprovementMarker) { assert s[b] == s[b..b + |ImprovementMarker|][0]; }
    else { assert s[b] == s[b..b + |CodeMarker|][0]; }
  }

  /** The sections of the generated text. */
  function Sections(s: string): (secs: seq<string>)
    ensures IssueHeads(secs) <= IssueCount(s, 0)
    ensures |secs| >= 1
    ensures Join(secs, "") == s
    ensures forall k :: 0 <= k < |secs| ==> Isolated(secs[k])
    ensures forall k :: 1 <= k < |secs| ==> MarkerAt(secs[k], 0)
    ensures |s| > 0 ==> forall k :: 0 <= k < |secs| ==> |secs[k]| > 0
  {
    if |s| == 0 then [s] else SectionsFrom(s, 0, 1)
  }

  // ---------------------------------------------------------------------
  // Captures: `sec.match(/MARKER(.*?)(?=STOP|…|$)/s)[1]`

  /** First position at or after `j` where one of `stops` starts, or the end. */
  function StopFrom(s: string, stops: seq<string>, j: nat): (e: nat)
    requires j <= |s|
    ensures j <= e <= |s|
    ensures forall m, k :: j <= m < e && k in stops ==> !StartsAt(s, m, k)
    ensures e < |s| ==> exists k :: k in stops && StartsAt(s, e, k)
    decreases |s| - j
  {
    if j == |s| || exists k :: k in stops && StartsAt(s, j, k) then j
    else StopFrom(s, stops, j + 1)
  }

  /** The text after the first `marker` in `sec`, lazily up to the first of
      `stops` or the end of `sec`; `None` when `marker` does not occur. */
  function Capture(sec: string, marker: string, stops: seq<string>): (r: Option<string>)
    ensures r.Some? <==> Contains(sec, marker)
    ensures r.Some? ==>
      var i := FindFrom(sec, marker, 0).value;
      var e := i + |marker| + |r.value|;
      && e <= |sec| && r.value == sec[i + |marker|..e]
      && (forall m, k :: i + |marker| <= m < e && k in stops ==> !StartsAt(sec, m, k))
      && (e == |sec| || exists k :: k in stops && StartsAt(sec, e, k))
  {
    match FindFrom(sec, marker, 0)
    case None => None
    case Some(i) => Some(sec[i + |marker|..StopFrom(sec, stops, i + |marker|)])
  }

  // ---------------------------------------------------------------------
  // Line numbers: `/line[s]?\s*(?:number[s]?)?:?\s*(\d+(?:\s*[-,]\s*\d+)*)/i`

  /** `k` (lower case) occurs at `i` ignoring ASCII case. */
  predicate StartsAtFolded(s: string, i: nat, k: string) {
    StartsAt(Lower(s), i, k)
  }

  /** One more character at `i` if it is `c` ignoring ASCII case. */
  function OptionalFolded(s: string, i: nat, c: char): (j: nat)
    requires i <= |s|
    ensures i <= j <= i + 1 && j <= |s|
  {
    if i < |s| && LowerChar(s[i]) == c then i + 1 else i
  }

  /** A character of a number list: a digit or a `[-,\s]` separator. */
  predicate ListChar(c: char) {
    IsDigit(c) || InClass(c, Separator)
  }

  /** End of the digit run `\d+` at `g`. */
  function DigitsEnd(s: string, g: nat): (d: nat)
    requires g < |s| && IsDigit(s[g])
    ensures g < d <= |s|
    ensures forall m :: g <= m < d ==> IsDigit(s[m])
    ensures d == |s| || !IsDigit(s[d])
  {
    var d := SkipClass(s, g, Digit);
    assert forall m :: g <= m < d ==> InClass(s[m], Digit);
    d
  }

  /** `s[d..k]` reads as `\s*[-,]\s*` with its one separator at `j`. */
  predicate GapAt(s: string, d: nat, j: nat, k: nat) {
    && d <= j < k <= |s| && (s[j] == '-' || s[j] == ',')
    && (forall m :: d <= m < j ==> IsSpace(s[m]))
    && (forall m :: j < m < k ==> IsSpace(s[m]))
  }

  /** `\s*[-,]\s*\d` follows at `d`: another repetition of the list could
      be taken. */
  ghost predicate MoreFollows(s: string, d: nat) {
    exists j: nat, k: nat :: GapAt(s, d, j, k) && k < |s| && IsDigit(s[k])
  }

  /** `s[a..b]` is a maximal stretch of non-digits with a digit on each
      side. */
  predicate DigitGap(s: string, a: nat, b: nat) {
    && 0 < a < b < |s| && IsDigit(s[a - 1]) && IsDigit(s[b])
    && forall m :: a <= m < b ==> !IsDigit(s[m])
  }

  /** Inside `s[g..e]`, every stretch of non-digits between two digits is
      one `\s*[-,]\s*` gap. */
  ghost predicate GapsAreSeparators(s: string, g: nat, e: nat) {
    && g <= e <= |s|
    && forall a: nat, b: nat :: g < a && b < e && DigitGap(s, a, b) ==> exists j: nat :: GapAt(s, a, j, b)
  }

  /** Where another repetition follows, the greedy whitespace skips reach
      its separator and then its digit. */
  lemma GreedyGap(s: string, d: nat)
    requires d <= |s|
    ensures MoreFollows(s, d) ==>
      var j := SkipClass(s, d, Space);
      && j < |s| && (s[j] == '-' || s[j] == ',')
      && SkipClass(s, j + 1, Space) < |s| && IsDigit(s[SkipClass(s, j + 1, Space)])
  {
    if MoreFollows(s, d) {
      var j: nat, k: nat :| GapAt(s, d, j, k) && k < |s| && IsDigit(s[k]);
      SeparatorLandsAt(s, d, j, k);
    }
  }

  /** The greedy whitespace skips stop at the separator `j` and at the digit
      `k` after it. */
  lemma SeparatorLandsAt(s: string, d: nat, j: nat, k: nat)
    requires GapAt(s, d, j, k) && k < |s| && IsDigit(s[k])
    ensures SkipClass(s, d, Space) == j && SkipClass(s, j + 1, Space) == k
  {
    SkipLandsAt(s, d, j, Space);
    SkipLandsAt(s, j + 1, k, Space);
  }

  /** A greedy run of `cls` from `i` stops exactly at the first character
      outside `cls`. */
  lemma SkipLandsAt(s: string, i: nat, j: nat, cls: CharClass)
    requires i <= j < |s| && !InClass(s[j], cls)
    requires forall m :: i <= m < j ==> InClass(s[m], cls)
    ensures SkipClass(s, i, cls) == j
  {
  }

  /** Start of the next number when `\s*[-,]\s*\d` follows at `d`. */
  function NextNumber(s: string, d: nat): (k: Option<nat>)
    requires d <= |s|
    ensures k.Some? ==> d < k.value < |s| && IsDigit(s[k.value])
    ensures k.Some? ==> exists j :: GapAt(s, d, j, k.value)
    ensures k.None? ==> !MoreFollows(s, d)
  {
    GreedyGap(s, d);
    var j := SkipClass(s, d, Space);
    if j < |s| && (s[j] == '-' || s[j] == ',') then
      var k := SkipClass(s, j + 1, Space);
      if k < |s| && IsDigit(s[k]) then
        assert GapAt(s, d, j, k);
        Some(k)
      else None
    else None
  }

  /** End of `\d+(?:\s*[-,]\s*\d+)*` from a digit at `g`, taking every
      repetition that completes. */
  function NumberListEnd(s: string, g: nat): (e: nat)
    requires g < |s| && IsDigit(s[g])
    ensures g < e <= |s|
    decreases |s| - g
  {
    var d := DigitsEnd(s, g);
    match NextNumber(s, d)
    case Some(k) => NumberListEnd(s, k)
    case None => d
  }

  /** No digit follows the greedy list, and nothing after it continues
      it. */
  lemma {:induction false} NumberListEndMaximal(s: string, g: nat)
    requires g < |s| && IsDigit(s[g])
    ensures NumberListEnd(s, g) == |s| || !IsDigit(s[NumberListEnd(s, g)])
    ensures !MoreFollows(s, NumberListEnd(s, g))
    decreases |s| - g
  {
    var d := DigitsEnd(s, g);
    match NextNumber(s, d)
    case Some(k) =>
      assert NumberListEnd(s, g) == NumberListEnd(s, k);
      NumberListEndMaximal(s, k);
    case None =>
      assert NumberListEnd(s, g) == d;
  }

  /** The greedy list ends with a digit. */
  lemma {:induction false} NumberListEndLastDigit(s: string, g: nat)
    requires g < |s| && IsDigit(s[g])
    ensures IsDigit(s[NumberListEnd(s, g) - 1])
    decreases |s| - g
  {
    var d := DigitsEnd(s, g);
    match NextNumber(s, d)
    case Some(k) => NumberListEndLastDigit(s, k);
    case None =>
  }

  /** The greedy list holds only digits, separators and whitespace. */
  lemma {:induction false} NumberListEndChars(s: string, g: nat)
    requires g < |s| && IsDigit(s[g])
    ensures forall m :: g <= m < NumberListEnd(s, g) ==> ListChar(s[m])
    decreases |s| - g
  {
    var d := DigitsEnd(s, g);
    match NextNumber(s, d)
    case Some(k) =>
      NumberListEndChars(s, k);
      var j: nat :| GapAt(s, d, j, k);
      assert forall m :: d <= m < k ==> m == j || IsSpace(s[m]);
    case None =>
  }

  /** Between the digit runs of the greedy list stand only gaps of the form
      `\s*[-,]\s*`. */
  lemma {:induction false} NumberListEndGaps(s: string, g: nat)
    requires g < |s| && IsDigit(s[g])
    ensures GapsAreSeparators(s, g, NumberListEnd(s, g))
    decreases |s| - g
  {
    var d := DigitsEnd(s, g);
    match NextNumber(s, d)
    case Some(k) =>
      NumberListEndGaps(s, k);
      var j: nat :| GapAt(s, d, j, k);
      GapsStep(s, g, d, j, k, NumberListEnd(s, k));
    case None =>
      DigitsHaveNoGaps(s, g, d);
  }

  /** A run of digits has no gap inside it. */
  lemma DigitsHaveNoGaps(s: string, g: nat, d: nat)
    requires g <= d <= |s|
    requires forall m :: g <= m < d ==> IsDigit(s[m])
    ensures GapsAreSeparators(s, g, d)
  {
    forall a: nat, b: nat | g < a < b < d
      ensures !DigitGap(s, a, b)
    {
      assert IsDigit(s[a]);
    }
  }

  /** A digit run, a gap, and a list whose gaps are separators make a list
      whose gaps are separators: the one new gap is the one between `d` and
      `k`. */
  lemma GapsStep(s: string, g: nat, d: nat, j: nat, k: nat, e: nat)
    requires g < d && GapAt(s, d, j, k) && k < e <= |s| && IsDigit(s[k])
    requires forall m :: g <= m < d ==> IsDigit(s[m])
    requires GapsAreSeparators(s, k, e)
    ensures GapsAreSeparators(s, g, e)
  {
    assert forall m :: d <= m < k ==> !IsDigit(s[m]) by {
      forall m | d <= m < k ensures !IsDigit(s[m]) {
        assert m == j || IsSpace(s[m]);
      }
    }
    forall a: nat, b: nat | g < a && b < e && DigitGap(s, a, b)
      ensures exists j' :: GapAt(s, a, j', b)
    {
      if a <= d {
        assert !IsDigit(s[a]);
        assert a == d;
        assert !IsDigit(s[k]) || b <= k;
        assert b == k;
        assert GapAt(s, a, j, b);
      } else {
        assert k < a;
      }
    }
  }

  /** A character the prefix between `line` and the digits may consume:
      whitespace, a colon, or a letter of `s`/`number` in either case. */
  predicate PrefixChar(c: char) {
    var l := LowerChar(c);
    IsSpace(c) || c == ':' || l == 's' || l == 'n' || l == 'u' || l == 'm' || l == 'b' || l == 'e' || l == 'r'
  }

  /** Where the number list starts when the pattern matches at `p`: after
      `line`, an optional `s`, whitespace, an optional `number` or `numbers`,
      an optional colon and whitespace, a digit must follow. The prefix only
      ever consumes letters, whitespace and a colon, and each optional part
      is followed by something it cannot match, so the greedy reading is the
      only one that can reach a digit. */
  function NumberStartAt(s: string, p: nat): (g: Option<nat>)
    requires p <= |s|
    ensures g.Some? ==> p < g.value < |s| && IsDigit(s[g.value])
    ensures g.Some? ==> StartsAtFolded(s, p, "line") && p + 4 <= g.value
    ensures g.Some? ==> forall m :: p + 4 <= m < g.value ==> PrefixChar(s[m])
  {
    if !StartsAtFolded(s, p, "line") then None
    else
      var b := OptionalFolded(s, p + 4, 's');
      assert b == p + 4 || PrefixChar(s[p + 4]);
      DigitAfterPrefix(s, b)
  }

  /** The greedy `\s*(?:number[s]?)?:?\s*` from `b`, when a digit follows it. */
  function DigitAfterPrefix(s: string, b: nat): (g: Option<nat>)
    requires b <= |s|
    ensures g.Some? ==> b <= g.value < |s| && IsDigit(s[g.value])
    ensures g.Some? ==> forall m :: b <= m < g.value ==> PrefixChar(s[m])
  {
    var c := SkipClass(s, b, Space);
    var d := if StartsAtFolded(s, c, "number") then OptionalFolded(s, c + 6, 's') else c;
    var f := if d < |s| && s[d] == ':' then d + 1 else d;
    var g := SkipClass(s, f, Space);
    if g < |s| && IsDigit(s[g]) then Some(g) else None
  }

  // The prefix `line[s]?\s*(?:number[s]?)?:?\s*` read as a path: any
  // choice for each optional part and each repetition, not just the greedy one.

  /** `s[a..b]` is whitespace. */
  predicate SpacesBetween(s: string, a: nat, b: nat) {
    a <= b <= |s| && forall m :: a <= m < b ==> IsSpace(s[m])
  }

  /** An optional letter `c`, in either case, at `i` is skipped or taken. */
  predicate OptionalStep(s: string, i: nat, c: char, j: nat) {
    j == i || (i < |s| && LowerChar(s[i]) == c && j == i + 1)
  }

  /** `(?:number[s]?)?` from `c` to `d`. */
  predicate NumberWordStep(s: string, c: nat, d: nat) {
    d == c || (StartsAtFolded(s, c, "number") && OptionalStep(s, c + 6, 's', d))
  }

  /** `:?` from `d` to `f`. */
  predicate ColonStep(s: string, d: nat, f: nat) {
    f == d || (d < |s| && s[d] == ':' && f == d + 1)
  }

  /** The prefix runs from `p` to a digit at `g`, its parts ending at `b`,
      `c`, `d` and `f`. */
  predicate PrefixPath(s: string, p: nat, b: nat, c: nat, d: nat, f: nat, g: nat) {
    && StartsAtFolded(s, p, "line") && OptionalStep(s, p + 4, 's', b)
    && SpacesBetween(s, b, c) && NumberWordStep(s, c, d) && ColonStep(s, d, f)
    && SpacesBetween(s, f, g) && g < |s| && IsDigit(s[g])
  }

  /** The pattern can match at `p` with its number list starting at `g`. */
  ghost predicate ListStartsAt(s: string, p: nat, g: nat) {
    exists b, c, d, f :: PrefixPath(s, p, b, c, d, f, g)
  }

  /** The greedy reading finds a number list exactly where some reading of
      the pattern does, and at the same digit. */
  lemma NumberStartAtIff(s: string, p: nat, g: nat)
    requires p <= |s|
    ensures NumberStartAt(s, p) == Some(g) <==> ListStartsAt(s, p, g)
  {
    if NumberStartAt(s, p) == Some(g) {
      GreedyIsPath(s, p, g);
    }
    if ListStartsAt(s, p, g) {
      var b, c, d, f :| PrefixPath(s, p, b, c, d, f, g);
      GreedyFollowsPath(s, p, b, c, d, f, g);
    }
  }

  /** The greedy reading is one of the readings. */
  lemma GreedyIsPath(s: string, p: nat, g: nat)
    requires p <= |s| && NumberStartAt(s, p) == Some(g)
    ensures ListStartsAt(s, p, g)
  {
    var b := OptionalFolded(s, p + 4, 's');
    var c := SkipClass(s, b, Space);
    var d := if StartsAtFolded(s, c, "number") then OptionalFolded(s, c + 6, 's') else c;
    var f := if d < |s| && s[d] == ':' then d + 1 else d;
    assert DigitAfterPrefix(s, b) == Some(g);
    assert PrefixPath(s, p, b, c, d, f, g);
  }

  /** A folded occurrence of `k` starts with `k`'s first letter. */
  lemma FoldedHead(s: string, i: nat, k: string)
    requires |k| > 0
    ensures StartsAtFolded(s, i, k) ==> i < |s| && LowerChar(s[i]) == k[0]
  {
    if StartsAtFolded(s, i, k) {
      assert Lower(s)[i..i + |k|][0] == Lower(s)[i];
    }
  }

  /** After `:?`, the greedy `\s*` reaches the digit the path reaches, and
      the greedy colon is the path's. */
  lemma ColonStage(s: string, d: nat, f: nat, g: nat)
    requires d <= |s| && ColonStep(s, d, f) && SpacesBetween(s, f, g) && g < |s| && IsDigit(s[g])
    ensures (if d < |s| && s[d] == ':' then d + 1 else d) == f
    ensures SkipClass(s, f, Space) == g
  {
    assert f < g ==> IsSpace(s[f]);
    SkipLandsAt(s, f, g, Space);
  }

  /** The greedy `(?:number[s]?)?` ends where the path's does. */
  lemma NumberStage(s: string, c: nat, d: nat, f: nat, g: nat)
    requires c <= |s| && NumberWordStep(s, c, d) && ColonStep(s, d, f)
    requires SpacesBetween(s, f, g) && g < |s| && IsDigit(s[g])
    ensures (if StartsAtFolded(s, c, "number") then OptionalFolded(s, c + 6, 's') else c) == d
  {
    FoldedHead(s, c, "number");
    assert f < g ==> IsSpace(s[f]);
  }

  /** From the end of the optional `s`, the greedy reading reaches the
      path's digit, whatever the path's whitespace split. */
  lemma SpaceStage(s: string, b: nat, c: nat, d: nat, f: nat, g: nat)
    requires SpacesBetween(s, b, c) && NumberWordStep(s, c, d) && ColonStep(s, d, f)
    requires SpacesBetween(s, f, g) && g < |s| && IsDigit(s[g])
    ensures DigitAfterPrefix(s, b) == Some(g)
  {
    var c' := SkipClass(s, b, Space);
    SkipCoversRun(s, b, c, Space);
    if c < c' {
      SpacesOnly(s, b, c, d, f, g);
      GreedyLands(s, b, g, g, g, g);
    } else {
      NumberStage(s, c, d, f, g);
      ColonStage(s, d, f, g);
      GreedyLands(s, b, c, d, f, g);
    }
  }

  /** A path whose whitespace stops short of the greedy run takes no
      `number` and no colon, and reaches its digit through whitespace only. */
  lemma SpacesOnly(s: string, b: nat, c: nat, d: nat, f: nat, g: nat)
    requires SpacesBetween(s, b, c) && NumberWordStep(s, c, d) && ColonStep(s, d, f)
    requires SpacesBetween(s, f, g) && g < |s| && IsDigit(s[g])
    requires c < SkipClass(s, b, Space)
    ensures SkipClass(s, b, Space) == g && !StartsAtFolded(s, g, "number") && SkipClass(s, g, Space) == g
  {
    assert IsSpace(s[c]);
    FoldedHead(s, c, "number");
    assert d == c && f == c;
    SkipLandsAt(s, b, g, Space);
    FoldedHead(s, g, "number");
    SkipLandsAt(s, g, g, Space);
  }

  /** The greedy reading from `b`, step by step, lands on the digit at `g`. */
  lemma GreedyLands(s: string, b: nat, c: nat, d: nat, f: nat, g: nat)
    requires b <= |s| && c == SkipClass(s, b, Space)
    requires d == if StartsAtFolded(s, c, "number") then OptionalFolded(s, c + 6, 's') else c
    requires f == if d < |s| && s[d] == ':' then d + 1 else d
    requires g == SkipClass(s, f, Space) && g < |s| && IsDigit(s[g])
    ensures DigitAfterPrefix(s, b) == Some(g)
  {
  }

  /** A greedy run of `cls` from `i` goes at least as far as any run of
      `cls` from `i`. */
  lemma {:induction false} SkipCoversRun(s: string, i: nat, j: nat, cls: CharClass)
    requires i <= j <= |s|
    requires forall m :: i <= m < j ==> InClass(s[m], cls)
    ensures j <= SkipClass(s, i, cls)
    decreases j - i
  {
    if i < j {
      SkipCoversRun(s, i + 1, j, cls);
    }
  }

  /** The greedy optional `s` after `line` ends where the path's does. */
  lemma LetterStage(s: string, p: nat, b: nat, c: nat, d: nat, f: nat, g: nat)
    requires p + 4 <= |s| && PrefixPath(s, p, b, c, d, f, g)
    ensures OptionalFolded(s, p + 4, 's') == b
  {
    FoldedHead(s, b, "number");
    assert b < c ==> IsSpace(s[b]);
    assert f < g ==> IsSpace(s[f]);
  }

  /** Any reading of the prefix that reaches a digit is the greedy one. */
  lemma GreedyFollowsPath(s: string, p: nat, b: nat, c: nat, d: nat, f: nat, g: nat)
    requires p <= |s| && PrefixPath(s, p, b, c, d, f, g)
    ensures NumberStartAt(s, p) == Some(g)
  {
    FoldedHead(s, p, "line");
    assert p + 4 <= |s| by { assert |Lower(s)| == |s|; }
    LetterStage(s, p, b, c, d, f, g);
    SpaceStage(s, b, c, d, f, g);
  }

  /** The leftmost match at or after `p`, as (where it starts, where its
      number list starts). */
  function NumberMatchFrom(s: string, p: nat): (r: Option<(nat, nat)>)
    requires p <= |s|
    ensures r.Some? ==> p <= r.value.0 < |s| && NumberStartAt(s, r.value.0) == Some(r.value.1)
    ensures r.Some? ==> forall q :: p <= q < r.value.0 ==> NumberStartAt(s, q).None?
    ensures r.None? ==> forall q :: p <= q < |s| ==> NumberStartAt(s, q).None?
    decreases |s| - p
  {
    if p == |s| then None
    else
      var g := NumberStartAt(s, p);
      if g.Some? then Some((p, g.value)) else NumberMatchFrom(s, p + 1)
  }

  /** A non-empty text of digits and `[-,\s]` separators that starts and ends
      with a digit: the shape of every captured number list. */
  predicate NumberListShape(t: string) {
    && |t| > 0 && IsDigit(t[0]) && IsDigit(t[|t| - 1])
    && forall m :: 0 <= m < |t| ==> ListChar(t[m])
  }

  /** Capture group 1 of the line-number pattern in `content`, if it matches. */
  function NumberList(content: string): (r: Option<string>)
    ensures r.Some? ==> NumberListShape(r.value)
    ensures r.None? <==> forall q :: 0 <= q < |content| ==> NumberStartAt(content, q).None?
    ensures r.Some? ==> exists q :: (
      && 0 <= q < |content| && NumberStartAt(content, q).Some?
      && (forall q' :: 0 <= q' < q ==> NumberStartAt(content, q').None?)
      && r.value == ListFrom(content, NumberStartAt(content, q).value))
  {
    match NumberMatchFrom(content, 0)
    case None => None
    case Some((q, g)) =>
      assert NumberStartAt(content, q).Some?;
      Some(ListFrom(content, g))
  }

  /** The number list that starts with the digit at `g`. */
  function ListFrom(s: string, g: nat): (t: string)
    requires g < |s| && IsDigit(s[g])
    ensures NumberListShape(t)
    ensures g + |t| <= |s| && s[g..g + |t|] == t
    ensures g + |t| == |s| || !IsDigit(s[g + |t|])
    ensures !MoreFollows(s, g + |t|)
    ensures ListGaps(t)
  {
    var e := NumberListEnd(s, g);
    ListEndFacts(s, g, e);
    s[g..e]
  }

  /** The facts about the greedy list that `ListFrom` states, about its end
      `e`. */
  lemma ListEndFacts(s: string, g: nat, e: nat)
    requires g < |s| && IsDigit(s[g]) && e == NumberListEnd(s, g)
    ensures g < e <= |s| && NumberListShape(s[g..e]) && ListGaps(s[g..e])
    ensures e == |s| || !IsDigit(s[e])
    ensures !MoreFollows(s, e)
  {
    NumberListEndLastDigit(s, g);
    NumberListEndChars(s, g);
    ListSliceShape(s, g, e);
    NumberListEndGaps(s, g);
    GapsSlice(s, g, e);
    NumberListEndMaximal(s, g);
  }

  /** Every stretch between two numbers of the list `t` is `\s*[-,]\s*`. */
  ghost predicate ListGaps(t: string) {
    GapsAreSeparators(t, 0, |t|)
  }

  /** The gaps of `s[g..e]` are the gaps of `s` between `g` and `e`. */
  lemma GapsSlice(s: string, g: nat, e: nat)
    requires GapsAreSeparators(s, g, e)
    ensures ListGaps(s[g..e])
  {
    var t := s[g..e];
    forall a: nat, b: nat | 0 < a && b < |t| && DigitGap(t, a, b)
      ensures exists j: nat :: GapAt(t, a, j, b)
    {
      assert DigitGap(s, g + a, g + b);
      var j: nat :| GapAt(s, g + a, j, g + b);
      assert GapAt(t, a, j - g, b);
    }
  }

  /** The list `ListFrom` captures is the only one of its kind: any text at
      `g` with the shape of a list whose gaps are separators, followed by no
      digit and by no further repetition, is that capture. */
  lemma ListFromUnique(s: string, g: nat, t: string)
    requires g < |s| && IsDigit(s[g])
    requires NumberListShape(t) && ListGaps(t)
    requires g + |t| <= |s| && s[g..g + |t|] == t
    requires g + |t| == |s| || !IsDigit(s[g + |t|])
    requires !MoreFollows(s, g + |t|)
    ensures t == ListFrom(s, g)
  {
    var u := ListFrom(s, g);
    var e1, e2 := g + |t|, g + |u|;
    assert IsDigit(s[e1 - 1]) by { assert t[|t| - 1] == s[e1 - 1]; }
    assert IsDigit(s[e2 - 1]) by { assert u[|u| - 1] == s[e2 - 1]; }
    GapsUnslice(s, g, e1);
    GapsUnslice(s, g, e2);
    LongerListContinues(s, g, e1, e2);
    LongerListContinues(s, g, e2, e1);
  }

  /** A list ending at `e1` whose next character is no digit is continued
      by any longer list from the same start whose gaps are separators. */
  lemma LongerListContinues(s: string, g: nat, e1: nat, e2: nat)
    requires g < e1 <= |s| && IsDigit(s[e1 - 1]) && (e1 == |s| || !IsDigit(s[e1]))
    requires g < e2 <= |s| && IsDigit(s[e2 - 1]) && GapsAreSeparators(s, g, e2)
    ensures e1 < e2 ==> MoreFollows(s, e1)
  {
    if e1 < e2 {
      var b := FirstDigit(s, e1, e2 - 1);
      assert DigitGap(s, e1, b);
      var j: nat :| GapAt(s, e1, j, b);
    }
  }

  /** The first digit at or after `i`, given one at `z`. */
  function FirstDigit(s: string, i: nat, z: nat): (b: nat)
    requires i <= z < |s| && IsDigit(s[z])
    ensures i <= b <= z && IsDigit(s[b])
    ensures forall m :: i <= m < b ==> !IsDigit(s[m])
    decreases z - i
  {
    if IsDigit(s[i]) then i else FirstDigit(s, i + 1, z)
  }

  /** The gaps of `s` between `g` and `e` are the gaps of `s[g..e]`. */
  lemma GapsUnslice(s: string, g: nat, e: nat)
    requires g <= e <= |s| && ListGaps(s[g..e])
    ensures GapsAreSeparators(s, g, e)
  {
    var t := s[g..e];
    forall a: nat, b: nat | g < a && b < e && DigitGap(s, a, b)
      ensures exists j: nat :: GapAt(s, a, j, b)
    {
      assert DigitGap(t, a - g, b - g);
      var j: nat :| GapAt(t, a - g, j, b - g);
      assert GapAt(s, a, j + g, b);
    }
  }

  lemma ListSliceShape(s: string, g: nat, e: nat)
    requires g < e <= |s| && IsDigit(s[g]) && IsDigit(s[e - 1])
    requires forall m :: g <= m < e ==> ListChar(s[m])
    ensures NumberListShape(s[g..e])
  {
    var t := s[g..e];
    forall m | 0 <= m < |t|
      ensures ListChar(t[m])
    {
      assert t[m] == s[g + m];
    }
    assert t[|t| - 1] == s[e - 1];
  }

  /** `.map(n => parseInt(n.trim())).filter(n => !isNaN(n))` */
  function ParsedNumbers(pieces: seq<string>): seq<nat> {
    if |pieces| == 0 then []
    else
      (match ParseDecimal(Trim(pieces[0])) case Some(n) => [n] case None => [])
      + ParsedNumbers(pieces[1..])
  }

  /** Line numbers named in `content`: the captured list split on runs of
      `[-,\s]`, each piece parsed as a decimal number. */
  function LineNumbers(content: string): Option<seq<nat>> {
    match NumberList(content)
    case None => None
    case Some(t) => Some(ParsedNumbers(SplitRuns(t, Separator)))
  }

  predicate AllDigits(t: string) {
    forall m :: 0 <= m < |t| ==> IsDigit(t[m])
  }

  /** Splitting a digit-led, digit-ended list of digits and separators on
      separator runs leaves only non-empty digit strings. */
  lemma {:induction false} DigitPieces(t: string, p: nat, q: nat)
    requires p <= q <= |t| && |t| > 0 && IsDigit(t[|t| - 1])
    requires forall m :: 0 <= m < |t| ==> ListChar(t[m])
    requires p < |t| && IsDigit(t[p])
    requires forall m :: p <= m < q ==> IsDigit(t[m])
    ensures forall k :: 0 <= k < |SplitRunsFrom(t, Separator, p, q)| ==>
      |SplitRunsFrom(t, Separator, p, q)[k]| > 0 && AllDigits(SplitRunsFrom(t, Separator, p, q)[k])
    decreases |t| - q
  {
    if q == |t| {
    } else if InClass(t[q], Separator) {
      var e := SkipClass(t, q, Separator);
      assert e < |t| by { assert !InClass(t[|t| - 1], Separator); }
      assert IsDigit(t[e]);
      DigitPieces(t, e, e);
      var rest := SplitRunsFrom(t, Separator, e, e);
      assert SplitRunsFrom(t, Separator, p, q) == [t[p..q]] + rest;
      assert q > p by { assert !InClass(t[p], Separator); }
    } else {
      assert IsDigit(t[q]);
      DigitPieces(t, p, q + 1);
    }
  }

  /** Pieces that are non-empty digit strings all parse: nothing is dropped. */
  lemma {:induction false} ParsedDigitPieces(pieces: seq<string>)
    requires forall k :: 0 <= k < |pieces| ==> |pieces[k]| > 0 && AllDigits(pieces[k])
    ensures |ParsedNumbers(pieces)| == |pieces|
    ensures forall k :: 0 <= k < |pieces| ==> ParsedNumbers(pieces)[k] == DecimalValue(pieces[k])
  {
    if |pieces| > 0 {
      var t := pieces[0];
      assert Trim(t) == t by {
        var ab := TrimBounds(t);
        assert !IsSpace(t[0]) && !IsSpace(t[|t| - 1]);
      }
      assert SkipClass(t, 0, Digit) == |t|;
      assert t[..|t|] == t;
      ParsedDigitPieces(pieces[1..]);
    }
  }

  /** When the content names line numbers, it names at least one, and they
      are the digit runs of the captured list, in order, none dropped. */
  lemma LineNumbersAreDigitRuns(content: string)
    requires LineNumbers(content).Some?
    ensures var pieces := SplitRuns(NumberList(content).value, Separator);
      && |LineNumbers(content).value| == |pieces| >= 1
      && (forall k :: 0 <= k < |pieces| ==> |pieces[k]| > 0 && AllDigits(pieces[k]))
      && (forall k :: 0 <= k < |pieces| ==> LineNumbers(content).value[k] == DecimalValue(pieces[k]))
  {
    var t := NumberList(content).value;
    DigitPieces(t, 0, 0);
    ParsedDigitPieces(SplitRuns(t, Separator));
  }

  // ---------------------------------------------------------------------
  // Suggestions from sections

  /** The suggestion one section yields, if any: content is the trimmed
      `ISSUE:` capture, the kind comes from the classifier, confidence and
      severity start at 0.7 and medium, and a section without content
      yields nothing. */
  function SectionSuggestion(sec: string): Option<Suggestion> {
    if Trim(sec) == "" then None
    else
      var issue := Capture(sec, IssueMarker, [ImprovementMarker, CodeMarker]);
      var content := if issue.Some? then Trim(issue.value) else "";
      var kind := if issue.Some? then Classify(content) else Quality;
      var improvement := match Capture(sec, ImprovementMarker, [CodeMarker])
        case Some(t) => Some(Trim(t))
        case None => None;
      var example := match Capture(sec, CodeMarker, [IssueMarker])
        case Some(t) => Some(Trim(t))
        case None => None;
      if content == "" then None
      else Some(Suggestion(kind, content, BaseConfidence, Medium, improvement, example, LineNumbers(content)))
  }

  /** Suggestions of a list of sections, in order. */
  function Collect(secs: seq<string>): seq<Suggestion> {
    if |secs| == 0 then []
    else
      (match SectionSuggestion(secs[0]) case Some(x) => [x] case None => [])
      + Collect(secs[1..])
  }

  /** `parseAiResponse` */
  function ParseAiResponse(response: string): (r: seq<Suggestion>)
    ensures |r| <= IssueCount(response, 0)
    ensures forall k :: 0 <= k < |r| ==>
      && r[k].content != ""
      && r[k].kind == Classify(r[k].content)
      && r[k].confidence == BaseConfidence && r[k].severity == Medium
      && r[k].improvement.None? && r[k].codeExample.None?
      && r[k].lineNumbers == LineNumbers(r[k].content)
  {
    var secs := Sections(response);
    IssueSectionsMatch(secs);
    AtMostOnePerHead(secs);
    IssueSuggestionsShape(secs);
    Collect(secs)
  }

  // ---------------------------------------------------------------------
  // What the parser emits, stated directly

  /** A section that starts with `ISSUE:` and has text after it. */
  predicate IssueSection(sec: string) {
    StartsAt(sec, 0, IssueMarker) && Trim(sec[|IssueMarker|..]) != ""
  }

  /** The suggestion an issue section is expected to give. */
  function FromIssue(sec: string): Suggestion
    requires StartsAt(sec, 0, IssueMarker)
  {
    var content := Trim(sec[|IssueMarker|..]);
    Suggestion(Classify(content), content, BaseConfidence, Medium, None, None, LineNumbers(content))
  }

  /** In a section where markers are isolated, the `IMPROVEMENT:` and `CODE:`
      captures never fire inside an `ISSUE:` section, and the `ISSUE:`
      capture runs to the end of its section. */
  lemma IsolatedSectionSuggestion(sec: string)
    requires Isolated(sec)
    ensures SectionSuggestion(sec) ==
      if IssueSection(sec) then Some(FromIssue(sec)) else None
  {
    if StartsAt(sec, 0, IssueMarker) {
      assert sec[0] == sec[0..|IssueMarker|][0];
      assert Trim(sec) != "";
      IssueRunsToEnd(sec);
      assert sec[1] == sec[0..|IssueMarker|][1] == 'S';
      assert |sec| >= |ImprovementMarker| ==> sec[0..|ImprovementMarker|][1] == 'S';
      assert |sec| >= |CodeMarker| ==> sec[0..|CodeMarker|][0] == 'I';
      NotCaptured(sec, ImprovementMarker, [CodeMarker]);
      NotCaptured(sec, CodeMarker, [IssueMarker]);
    } else {
      NotCaptured(sec, IssueMarker, [ImprovementMarker, CodeMarker]);
    }
  }

  /** In an isolated section that opens with `ISSUE:`, the capture is the
      whole rest of the section. */
  lemma IssueRunsToEnd(sec: string)
    requires Isolated(sec) && StartsAt(sec, 0, IssueMarker)
    ensures Capture(sec, IssueMarker, [ImprovementMarker, CodeMarker]) == Some(sec[|IssueMarker|..])
  {
    assert FindFrom(sec, IssueMarker, 0) == Some(0);
    var stop := StopFrom(sec, [ImprovementMarker, CodeMarker], |IssueMarker|);
    if stop < |sec| {
      assert MarkerAt(sec, stop);
      assert false;
    }
    assert sec[|IssueMarker|..stop] == sec[|IssueMarker|..];
  }

  /** A marker that does not open an isolated section is not captured in it. */
  lemma NotCaptured(sec: string, marker: string, stops: seq<string>)
    requires Isolated(sec) && !StartsAt(sec, 0, marker)
    requires marker == IssueMarker || marker == ImprovementMarker || marker == CodeMarker
    ensures Capture(sec, marker, stops).None?
  {
    forall m | 0 < m
      ensures !StartsAt(sec, m, marker)
    {
      if m < |sec| { assert !MarkerAt(sec, m); }
    }
  }

  /** The issue suggestions of a list of sections, in order. */
  function IssueSuggestions(secs: seq<string>): seq<Suggestion> {
    if |secs| == 0 then []
    else (if IssueSection(secs[0]) then [FromIssue(secs[0])] else []) + IssueSuggestions(secs[1..])
  }

  /** Over isolated sections, the parser emits exactly the issue sections'
      suggestions, in input order. */
  lemma {:induction false} IssueSectionsMatch(secs: seq<string>)
    requires forall k :: 0 <= k < |secs| ==> Isolated(secs[k])
    ensures Collect(secs) == IssueSuggestions(secs)
  {
    if |secs| > 0 {
      IsolatedSectionSuggestion(secs[0]);
      IssueSectionsMatch(secs[1..]);
    }
  }

  /** Parsing emits one suggestion per `ISSUE:` section with text, in order. */
  lemma ParseIsIssueSections(response: string)
    ensures ParseAiResponse(response) == IssueSuggestions(Sections(response))
  {
    IssueSectionsMatch(Sections(response));
  }

  /** Number of positions at or after `i` where `ISSUE:` starts. */
  function IssueCount(s: string, i: nat): nat
    decreases |s| - i
  {
    if i >= |s| then 0
    else (if StartsAt(s, i, IssueMarker) then 1 else 0) + IssueCount(s, i + 1)
  }

  /** Number of sections that start with `ISSUE:`. */
  function IssueHeads(secs: seq<string>): nat {
    if |secs| == 0 then 0
    else (if StartsAt(secs[0], 0, IssueMarker) then 1 else 0) + IssueHeads(secs[1..])
  }

  lemma {:induction false} AtMostOnePerHead(secs: seq<string>)
    ensures |IssueSuggestions(secs)| <= IssueHeads(secs)
  {
    if |secs| > 0 {
      AtMostOnePerHead(secs[1..]);
    }
  }

  /** Everything the issue sections give has the shape the parser promises. */
  lemma {:induction false} IssueSuggestionsShape(secs: seq<string>)
    ensures forall k :: 0 <= k < |IssueSuggestions(secs)| ==>
      var x := IssueSuggestions(secs)[k];
      && x.content != "" && x.kind == Classify(x.content)
      && x.confidence == BaseConfidence && x.severity == Medium
      && x.improvement.None? && x.codeExample.None?
      && x.lineNumbers == LineNumbers(x.content)
  {
    if |secs| > 0 {
      IssueSuggestionsShape(secs[1..]);
    }
  }
}
