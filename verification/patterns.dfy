/** The regular expressions the analyzer scans code with, and what a global
    `code.match(/…/g)` does with them: leftmost matches, non-overlapping,
    each scan resuming where the previous match ended.

    Every pattern here is matched deterministically: each greedy repetition
    is followed by something its own class cannot match, and each lazy one by
    a literal, so the first way a regex engine finds to match at a position
    is the only candidate, and `MatchAt` computes it directly. */
module Patterns {
  import opened Text

  datatype Pattern =
      /** `k1|k2|…` of literal words, the first alternative that matches
          winning; when `bounded`, each written `\bk\b`. */
    | Words(alternatives: seq<string>, bounded: bool)
      /** /class\s+\w+/ */
    | ClassDecl
      /** /function\s+\w+\s*\(|const\s+\w+\s*=\s*(\([^)]*\)|async\s*\([^)]*\))\s*=>|\w+\s*\([^)]*\)\s*{/ */
    | FunctionDecl
      /** /\/\*[\s\S]*?\*\// */
    | BlockComment
      /** /function\s+\w+\s*\([^)]*\)\s*{[\s\S]{500,}?}/ */
    | LongFunction

  /** The minimum body length `[\s\S]{500,}?` demands of a long function. */
  const LongBodyMin: nat := 500

  /** A `\w` character sits at index `i` (indices outside `s` hold none). */
  predicate WordAt(s: string, i: int) {
    0 <= i < |s| && IsWordChar(s[i])
  }

  /** `\b` holds at index `i`: exactly one side is a word character. */
  predicate BoundaryAt(s: string, i: int) {
    WordAt(s, i - 1) != WordAt(s, i)
  }

  /** The literal `k` matches at `i`, with `\b` on both sides when `bounded`. */
  predicate WordMatchAt(s: string, i: nat, k: string, bounded: bool) {
    && |k| > 0
    && StartsAt(s, i, k)
    && (bounded ==> BoundaryAt(s, i) && BoundaryAt(s, i + |k|))
  }

  function MatchWords(s: string, i: nat, ks: seq<string>, bounded: bool): (r: Option<nat>)
    requires i <= |s|
    ensures r.Some? <==> exists k :: k in ks && WordMatchAt(s, i, k, bounded)
    ensures r.Some? ==> i < r.value <= |s|
  {
    if |ks| == 0 then None
    else if WordMatchAt(s, i, ks[0], bounded) then Some(i + |ks[0]|)
    else
      var r := MatchWords(s, i, ks[1..], bounded);
      assert forall k :: k in ks <==> k == ks[0] || k in ks[1..];
      r
  }

  /** `kw\s+\w+` at `i`: the position after the name. */
  function KeywordAndName(s: string, i: nat, kw: string): (r: Option<nat>)
    requires i <= |s|
    ensures r.Some? ==> i + |kw| < r.value <= |s|
  {
    if !StartsAt(s, i, kw) then None
    else
      var a := SkipClass(s, i + |kw|, Space);
      var b := SkipClass(s, a, WordChar);
      if a == i + |kw| || b == a then None else Some(b)
  }

  /** `\([^)]*\)` at `i`: the position after the closing parenthesis. */
  function ParenList(s: string, i: nat): (r: Option<nat>)
    requires i <= |s|
    ensures r.Some? ==> i < r.value <= |s| && s[r.value - 1] == ')'
  {
    if i == |s| || s[i] != '(' then None
    else
      var f := SkipClass(s, i + 1, NotCloseParen);
      if f == |s| then None else Some(f + 1)
  }

  /** First alternative of the function pattern: `function\s+\w+\s*\(`. */
  function NamedFunctionHead(s: string, i: nat): (r: Option<nat>)
    requires i <= |s|
    ensures r.Some? ==> i < r.value <= |s|
  {
    match KeywordAndName(s, i, "function")
    case None => None
    case Some(a) =>
      var d := SkipClass(s, a, Space);
      if d < |s| && s[d] == '(' then Some(d + 1) else None
  }

  /** Second alternative: `const\s+\w+\s*=\s*(\([^)]*\)|async\s*\([^)]*\))\s*=>`. */
  function ArrowBinding(s: string, i: nat): (r: Option<nat>)
    requires i <= |s|
    ensures r.Some? ==> i < r.value <= |s|
  {
    match KeywordAndName(s, i, "const")
    case None => None
    case Some(a) =>
      var d := SkipClass(s, a, Space);
      if d == |s| || s[d] != '=' then None
      else
        var e := SkipClass(s, d + 1, Space);
        var params :=
          if e < |s| && s[e] == '(' then ParenList(s, e)
          else if StartsAt(s, e, "async") then ParenList(s, SkipClass(s, e + 5, Space))
          else None;
        match params
        case None => None
        case Some(g) =>
          var k := SkipClass(s, g, Space);
          if StartsAt(s, k, "=>") then Some(k + 2) else None
  }

  /** Third alternative: `\w+\s*\([^)]*\)\s*{`. */
  function CallThenBrace(s: string, i: nat): (r: Option<nat>)
    requires i <= |s|
    ensures r.Some? ==> i < r.value <= |s|
  {
    var c := SkipClass(s, i, WordChar);
    if c == i then None
    else
      match ParenList(s, SkipClass(s, c, Space))
      case None => None
      case Some(f) =>
        var g := SkipClass(s, f, Space);
        if g < |s| && s[g] == '{' then Some(g + 1) else None
  }

  /** Where the match of `p` that starts exactly at `i` ends, if there is one. */
  function MatchAt(p: Pattern, s: string, i: nat): (r: Option<nat>)
    requires i <= |s|
    ensures r.Some? ==> i < r.value <= |s|
  {
    match p
    case Words(ks, bounded) => MatchWords(s, i, ks, bounded)
    case ClassDecl => KeywordAndName(s, i, "class")
    case FunctionDecl =>
      var first := NamedFunctionHead(s, i);
      if first.Some? then first
      else
        var second := ArrowBinding(s, i);
        if second.Some? then second else CallThenBrace(s, i)
    case BlockComment =>
      if !StartsAt(s, i, "/*") then None
      else
        (match FindFrom(s, "*/", i + 2)
         case None => None
         case Some(j) => Some(j + 2))
    case LongFunction =>
      match KeywordAndName(s, i, "function")
      case None => None
      case Some(a) =>
        match ParenList(s, SkipClass(s, a, Space))
        case None => None
        case Some(f) =>
          var g := SkipClass(s, f, Space);
          if g + 1 + LongBodyMin > |s| || s[g] != '{' then None
          else
            match FindFrom(s, "}", g + 1 + LongBodyMin)
            case None => None
            case Some(h) => Some(h + 1)
  }

  /** Number of matches a global scan from `i` finds: the length of the
      array `match(/…/g)` returns (taking `null` as none). */
  function CountFrom(p: Pattern, s: string, i: nat): (n: nat)
    requires i <= |s|
    ensures n <= |s| - i
    decreases |s| - i
  {
    if i == |s| then 0
    else
      match MatchAt(p, s, i)
      case Some(e) => 1 + CountFrom(p, s, e)
      case None => CountFrom(p, s, i + 1)
  }

  function Count(p: Pattern, s: string): nat {
    CountFrom(p, s, 0)
  }

  /** The first match at or after `i`, as (start, end): element 0 of the
      array a global `match` returns. */
  function FirstMatch(p: Pattern, s: string, i: nat): (r: Option<(nat, nat)>)
    requires i <= |s|
    ensures r.Some? ==> i <= r.value.0 <= |s| && MatchAt(p, s, r.value.0) == Some(r.value.1)
    ensures r.Some? ==> forall m :: i <= m < r.value.0 ==> MatchAt(p, s, m).None?
    ensures r.None? ==> forall m :: i <= m <= |s| ==> MatchAt(p, s, m).None?
    decreases |s| - i
  {
    match MatchAt(p, s, i)
    case Some(e) => Some((i, e))
    case None => if i == |s| then None else FirstMatch(p, s, i + 1)
  }

  /** A global scan finds something exactly when some position matches. */
  lemma {:induction false} CountPositiveIffMatch(p: Pattern, s: string, i: nat)
    requires i <= |s|
    ensures CountFrom(p, s, i) > 0 <==> FirstMatch(p, s, i).Some?
    decreases |s| - i
  {
    if i < |s| && MatchAt(p, s, i).None? {
      CountPositiveIffMatch(p, s, i + 1);
    }
  }

  /** Positions that start no match can be skipped without changing the count. */
  lemma {:induction false} SkipUnmatched(p: Pattern, s: string, a: nat, b: nat)
    requires a <= b <= |s|
    requires forall m :: a <= m < b ==> MatchAt(p, s, m).None?
    ensures CountFrom(p, s, a) == CountFrom(p, s, b)
    decreases b - a
  {
    if a < b {
      assert MatchAt(p, s, a).None?;
      assert CountFrom(p, s, a) == CountFrom(p, s, a + 1);
      SkipUnmatched(p, s, a + 1, b);
    }
  }

  /** A plain literal is found by a global scan exactly when the text
      contains it. */
  lemma PlainCountPositiveIffContains(k: string, s: string)
    requires |k| > 0
    ensures Count(Words([k], false), s) > 0 <==> Contains(s, k)
  {
    var p := Words([k], false);
    CountPositiveIffMatch(p, s, 0);
    ContainsMeansOccurs(s, k);
    if Contains(s, k) {
      var m := FindFrom(s, k, 0).value;
      assert WordMatchAt(s, m, k, false);
      assert MatchAt(p, s, m).Some?;
    }
    if FirstMatch(p, s, 0).Some? {
      var m := FirstMatch(p, s, 0).value.0;
      assert exists k' :: k' in [k] && WordMatchAt(s, m, k', false);
      assert StartsAt(s, m, k);
    }
  }

  /** No proper suffix of `k` is also a prefix of it, so two copies of `k`
      in a text never overlap. */
  predicate Unbordered(k: string) {
    forall d :: 0 < d < |k| ==> k[d..] != k[..|k| - d]
  }

  /** The positions from `i` on where a copy of `k` starts. */
  function Occurrences(s: string, k: string, i: nat): set<nat> {
    set m: nat | i <= m <= |s| && StartsAt(s, m, k)
  }

  /** Two overlapping copies of `k` would make a suffix of `k` a prefix of it. */
  lemma OverlapIsBorder(s: string, k: string, m: nat, n: nat)
    requires StartsAt(s, m, k) && StartsAt(s, n, k) && m < n < m + |k|
    ensures !Unbordered(k)
  {
    var d := n - m;
    assert k[d..] == s[m..m + |k|][d..] == s[n..m + |k|];
    assert k[..|k| - d] == s[n..n + |k|][..|k| - d] == s[n..m + |k|];
  }

  lemma OccurrencesSkip(s: string, k: string, i: nat)
    requires !StartsAt(s, i, k)
    ensures Occurrences(s, k, i) == Occurrences(s, k, i + 1)
  {
  }

  lemma OccurrencesTake(s: string, k: string, i: nat)
    requires |k| > 0 && StartsAt(s, i, k)
    requires forall m :: i < m < i + |k| ==> !StartsAt(s, m, k)
    ensures |Occurrences(s, k, i)| == 1 + |Occurrences(s, k, i + |k|)|
  {
    assert Occurrences(s, k, i) == {i} + Occurrences(s, k, i + |k|);
  }

  /** For a literal that cannot overlap itself, a plain global scan finds
      every occurrence: the count is the number of positions where it starts. */
  lemma {:induction false} CountIsOccurrences(k: string, s: string, i: nat)
    requires |k| > 0 && Unbordered(k) && i <= |s|
    ensures CountFrom(Words([k], false), s, i) == |Occurrences(s, k, i)|
    decreases |s| - i
  {
    if i == |s| {
      assert Occurrences(s, k, i) == {};
    } else {
      SingleWordMatch(k, false, s, i);
      if StartsAt(s, i, k) {
        forall m | i < m < i + |k|
          ensures !StartsAt(s, m, k)
        {
          if StartsAt(s, m, k) { OverlapIsBorder(s, k, i, m); }
        }
        CountIsOccurrences(k, s, i + |k|);
        OccurrencesTake(s, k, i);
      } else {
        CountIsOccurrences(k, s, i + 1);
        OccurrencesSkip(s, k, i);
      }
    }
  }

  /** An operator made of non-word characters, written `\bk\b`, only
      matches with a word character right before and right after it: a
      spaced `a && b` is never counted. */
  lemma OperatorNeedsWordNeighbours(s: string, i: nat, k: string)
    requires i <= |s| && |k| > 0
    requires forall t :: 0 <= t < |k| ==> !IsWordChar(k[t])
    ensures MatchAt(Words([k], true), s, i).Some? ==>
      && 0 < i && IsWordChar(s[i - 1])
      && i + |k| < |s| && IsWordChar(s[i + |k|])
  {
    SingleWordMatch(k, true, s, i);
    if WordMatchAt(s, i, k, true) {
      assert s[i] == s[i..i + |k|][0] == k[0];
      assert s[i + |k| - 1] == s[i..i + |k|][|k| - 1] == k[|k| - 1];
    }
  }

  /** Sum of the counts of separate global scans, one per keyword: the
      `forEach` over a keyword list that adds each `match(...).length`. */
  function KeywordTotal(ks: seq<string>, s: string, bounded: bool): nat {
    if |ks| == 0 then 0 else Count(Words([ks[0]], bounded), s) + KeywordTotal(ks[1..], s, bounded)
  }

  /** A one-word pattern matches exactly where its word does. */
  lemma SingleWordMatch(k: string, bounded: bool, s: string, i: nat)
    requires i <= |s|
    ensures MatchAt(Words([k], bounded), s, i) == if WordMatchAt(s, i, k, bounded) then Some(i + |k|) else None
  {
    assert [k][1..] == [];
  }

  /** Where `else if` matches, `if` cannot match in its first five
      characters and matches at its sixth, ending where it ends. */
  lemma ElseIfHoldsIf(s: string, i: nat, bounded: bool)
    requires i <= |s|
    requires WordMatchAt(s, i, "else if", bounded)
    ensures forall m :: i <= m < i + 5 ==> !WordMatchAt(s, m, "if", bounded)
    ensures WordMatchAt(s, i + 5, "if", bounded)
  {
    forall m | i <= m < i + 5
      ensures !WordMatchAt(s, m, "if", bounded)
    {
      assert s[m] == s[i..i + 7][m - i];
      assert m + 2 <= |s| ==> s[m..m + 2][0] == s[m];
    }
    assert s[i + 4] == s[i..i + 7][4];
    assert s[i + 5..i + 7] == s[i..i + 7][5..7];
  }

  /** Where `if` matches, `else if` cannot match one character later. */
  lemma IfBlocksElseIf(s: string, i: nat, bounded: bool)
    requires i <= |s|
    requires WordMatchAt(s, i, "if", bounded)
    ensures !WordMatchAt(s, i + 1, "else if", bounded)
  {
    assert s[i + 1] == s[i..i + 2][1];
    assert i + 8 <= |s| ==> s[i + 1..i + 8][0] == s[i + 1];
  }

  /** Every `else if` the `else if` scan finds, the `if` scan finds too, at
      the `if` inside it; so an `if` scan never finds fewer matches. */
  lemma {:induction false} IfCoversElseIf(s: string, i: nat, bounded: bool)
    requires i <= |s|
    ensures CountFrom(Words(["if"], bounded), s, i) >= CountFrom(Words(["else if"], bounded), s, i)
    decreases |s| - i
  {
    var ifs := Words(["if"], bounded);
    var elifs := Words(["else if"], bounded);
    if i < |s| {
      SingleWordMatch("if", bounded, s, i);
      SingleWordMatch("else if", bounded, s, i);
      if WordMatchAt(s, i, "else if", bounded) {
        ElseIfHoldsIf(s, i, bounded);
        forall m | i <= m < i + 5
          ensures MatchAt(ifs, s, m).None?
        {
          SingleWordMatch("if", bounded, s, m);
        }
        SkipUnmatched(ifs, s, i, i + 5);
        SingleWordMatch("if", bounded, s, i + 5);
        IfCoversElseIf(s, i + 7, bounded);
      } else if WordMatchAt(s, i, "if", bounded) {
        IfBlocksElseIf(s, i, bounded);
        SingleWordMatch("else if", bounded, s, i + 1);
        SkipUnmatched(elifs, s, i + 1, i + 2);
        IfCoversElseIf(s, i + 2, bounded);
      } else {
        IfCoversElseIf(s, i + 1, bounded);
      }
    }
  }

  /** A keyword list that starts with `if` and `else if` counts every
      `else if` at least twice. */
  lemma ElseIfCountedTwice(ks: seq<string>, s: string, bounded: bool)
    requires |ks| >= 2 && ks[0] == "if" && ks[1] == "else if"
    ensures KeywordTotal(ks, s, bounded) >= 2 * Count(Words(["else if"], bounded), s)
  {
    assert ks[1..][0] == "else if";
    IfCoversElseIf(s, 0, bounded);
  }
}
