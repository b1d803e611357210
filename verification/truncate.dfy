/** Keeping the code sent for review within a word budget. Words are estimated as the
    number of pieces `split(/\s+/)` makes; when the whole text is over
    budget, it is cut by lines in front of the first line at which the
    running per-line estimate exceeds the budget. */
module Truncation {
  import opened Text

  const MaxTokensApprox: nat := 800

  /** `s.split(/\s+/).length` */
  function WordEstimate(s: string): nat {
    |SplitRuns(s, Space)|
  }

  // ---------------------------------------------------------------------
  // The estimate counts whitespace runs

  /** A whitespace character not preceded by whitespace begins a run. */
  predicate RunStart(s: string, i: nat)
    requires i < |s|
  {
    IsSpace(s[i]) && (i == 0 || !IsSpace(s[i - 1]))
  }

  /** Number of whitespace runs beginning at or after `i`. */
  function RunsFrom(s: string, i: nat): nat
    decreases |s| - i
  {
    if i >= |s| then 0 else (if RunStart(s, i) then 1 else 0) + RunsFrom(s, i + 1)
  }

  /** Inside a whitespace run no new run begins. */
  lemma {:induction false} NoRunStartInside(s: string, q: nat, e: nat)
    requires q < e <= |s|
    requires forall m :: q <= m < e ==> IsSpace(s[m])
    ensures RunsFrom(s, q + 1) == RunsFrom(s, e)
    decreases e - q
  {
    if q + 1 < e {
      NoRunStartInside(s, q + 1, e);
    }
  }

  lemma {:induction false} PiecesCountRuns(s: string, p: nat, q: nat)
    requires p <= q <= |s|
    requires q == 0 || q == |s| || !IsSpace(s[q - 1]) || !IsSpace(s[q])
    ensures |SplitRunsFrom(s, Space, p, q)| == 1 + RunsFrom(s, q)
    decreases |s| - q
  {
    if q == |s| {
    } else if IsSpace(s[q]) {
      var e := SkipClass(s, q, Space);
      PiecesCountRuns(s, e, e);
      NoRunStartInside(s, q, e);
    } else {
      PiecesCountRuns(s, p, q + 1);
    }
  }

  /** The estimate is one more than the number of whitespace runs: `""`
      counts 1, and leading or trailing whitespace adds an empty piece. */
  lemma WordEstimateCountsRuns(s: string)
    ensures WordEstimate(s) == RunsFrom(s, 0) + 1
  {
    PiecesCountRuns(s, 0, 0);
  }

  lemma {:induction false} RunsOfSuffix(a: string, b: string, j: nat)
    requires j <= |b|
    ensures RunsFrom(a + b, |a| + j) <= RunsFrom(b, j)
    decreases |b| - j
  {
    if j < |b| {
      RunsOfSuffix(a, b, j + 1);
      assert (a + b)[|a| + j] == b[j];
      if j > 0 { assert (a + b)[|a| + j - 1] == b[j - 1]; }
    }
  }

  lemma {:induction false} RunsOfConcat(a: string, b: string, i: nat)
    requires i <= |a|
    ensures RunsFrom(a + b, i) <= RunsFrom(a, i) + RunsFrom(b, 0)
    decreases |a| - i
  {
    if i == |a| {
      RunsOfSuffix(a, b, 0);
    } else {
      RunsOfConcat(a, b, i + 1);
      assert (a + b)[i] == a[i];
      if i > 0 { assert (a + b)[i - 1] == a[i - 1]; }
    }
  }

  /** Gluing two texts never adds to their whitespace runs. */
  lemma WordEstimateSubadditive(a: string, b: string)
    ensures WordEstimate(a + b) <= WordEstimate(a) + WordEstimate(b) - 1
  {
    WordEstimateCountsRuns(a + b);
    WordEstimateCountsRuns(a);
    WordEstimateCountsRuns(b);
    RunsOfConcat(a, b, 0);
  }

  // ---------------------------------------------------------------------
  // Per-line totals

  /** Sum of the per-line estimates of `lines`. */
  function TotalWords(lines: seq<string>): nat {
    if |lines| == 0 then 0 else WordEstimate(lines[0]) + TotalWords(lines[1..])
  }

  lemma {:induction false} TotalWordsAppend(lines: seq<string>, x: string)
    ensures TotalWords(lines + [x]) == TotalWords(lines) + WordEstimate(x)
  {
    if |lines| > 0 {
      assert (lines + [x])[1..] == lines[1..] + [x];
      TotalWordsAppend(lines[1..], x);
    }
  }

  /** Counting line by line never undercounts the whole text. */
  lemma {:induction false} LinesCountAtLeastWhole(s: string)
    ensures WordEstimate(s) <= TotalWords(Lines(s))
    decreases |s|
  {
    if '\n' in s {
      var j := IndexOf(s, '\n');
      var head := s[..j];
      var rest := s[j + 1..];
      assert Lines(s) == [head] + Lines(rest);
      assert ([head] + Lines(rest))[1..] == Lines(rest);
      assert s == head + ("\n" + rest);
      WordEstimateSubadditive(head, "\n" + rest);
      WordEstimateSubadditive("\n", rest);
      WordEstimateCountsRuns("\n");
      assert RunsFrom("\n", 0) == 1;
      LinesCountAtLeastWhole(rest);
    }
  }

  // ---------------------------------------------------------------------
  // The cut

  /** `k` is where the loop stops: the first line at which the running total
      of per-line estimates exceeds the budget. */
  predicate CutsAt(lines: seq<string>, k: nat) {
    && k < |lines|
    && TotalWords(lines[..k + 1]) > MaxTokensApprox
    && forall j :: 0 < j <= k ==> TotalWords(lines[..j]) <= MaxTokensApprox
  }

  /** The loop over lines from `i`, with `running` the total so far; it
      returns 0 when no line pushes the total over the budget. */
  function CutoffFrom(lines: seq<string>, i: nat, running: nat): (k: nat)
    requires i <= |lines|
    requires running == TotalWords(lines[..i])
    requires forall j :: 0 < j <= i ==> TotalWords(lines[..j]) <= MaxTokensApprox
    ensures TotalWords(lines) > MaxTokensApprox ==> CutsAt(lines, k)
    decreases |lines| - i
  {
    if i == |lines| then
      assert lines[..i] == lines;
      assert i > 0 ==> TotalWords(lines[..i]) <= MaxTokensApprox;
      0
    else
      var total := running + WordEstimate(lines[i]);
      assert lines[..i + 1] == lines[..i] + [lines[i]];
      TotalWordsAppend(lines[..i], lines[i]);
      if total > MaxTokensApprox then i else CutoffFrom(lines, i + 1, total)
  }

  /** `p` is a prefix of `s`. */
  predicate IsPrefix(p: string, s: string) {
    |p| <= |s| && s[..|p|] == p
  }

  /** Rejoining the first `k` lines gives a prefix of the text. */
  lemma {:induction false} LinePrefixIsPrefix(s: string, k: nat)
    requires k <= |Lines(s)|
    ensures IsPrefix(Join(Lines(s)[..k], "\n"), s)
    decreases |s|
  {
    if k > 0 && '\n' in s {
      var j := IndexOf(s, '\n');
      var head := s[..j];
      var rest := s[j + 1..];
      assert Lines(s) == [head] + Lines(rest);
      if k > 1 {
        LinePrefixIsPrefix(rest, k - 1);
        assert Lines(s)[..k] == [head] + Lines(rest)[..k - 1];
        assert Lines(s)[..k][1..] == Lines(rest)[..k - 1];
        var p := Join(Lines(rest)[..k - 1], "\n");
        assert Join(Lines(s)[..k], "\n") == head + "\n" + p;
        assert s == head + "\n" + rest;
      }
    } else if k > 0 {
      assert Lines(s)[..k] == [s];
    }
  }

  /** Rejoining lines with newlines never estimates more words than the
      lines do one by one. */
  lemma {:induction false} JoinEstimate(ls: seq<string>)
    requires |ls| > 0
    ensures WordEstimate(Join(ls, "\n")) <= TotalWords(ls)
  {
    if |ls| > 1 {
      var rest := Join(ls[1..], "\n");
      JoinEstimate(ls[1..]);
      assert Join(ls, "\n") == ls[0] + ("\n" + rest);
      WordEstimateSubadditive(ls[0], "\n" + rest);
      WordEstimateSubadditive("\n", rest);
      WordEstimateCountsRuns("\n");
      assert RunsFrom("\n", 0) == 1;
    }
  }

  datatype Truncated = Truncated(truncatedCode: string, isTruncated: bool)

  /** `truncateCodeIfNeeded`: within budget the code is returned whole;
      otherwise the lines before the first line at which the running
      estimate exceeds the budget are kept. Such a line always exists, and
      the result is always a prefix of the code. */
  function TruncateCodeIfNeeded(code: string): (r: Truncated)
    ensures WordEstimate(code) <= MaxTokensApprox ==> r == Truncated(code, false)
    ensures WordEstimate(code) > MaxTokensApprox ==>
      && r.isTruncated
      && exists k: nat :: CutsAt(Lines(code), k) && r.truncatedCode == Join(Lines(code)[..k], "\n")
    ensures IsPrefix(r.truncatedCode, code)
    ensures WordEstimate(r.truncatedCode) <= MaxTokensApprox
  {
    if WordEstimate(code) <= MaxTokensApprox then
      assert code[..|code|] == code;
      Truncated(code, false)
    else
      var lines := Lines(code);
      assert lines[..0] == [];
      var k := CutoffFrom(lines, 0, 0);
      LinesCountAtLeastWhole(code);
      LinePrefixIsPrefix(code, k);
      assert WordEstimate(Join(lines[..k], "\n")) <= MaxTokensApprox by {
        if k > 0 {
          JoinEstimate(lines[..k]);
        } else {
          WordEstimateCountsRuns("");
        }
      }
      Truncated(Join(lines[..k], "\n"), true)
  }
}
