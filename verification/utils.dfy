/** The stand-alone complexity counter: plain, unbounded substring scans for
    a handful of keywords and comment markers. */
module Utils {
  import opened Text
  import opened Patterns

  /** The keywords counted as plain substrings: the regex sources `\|\|` and
      `\?` are the literals `||` and `?`. */
  const PlainControlFlowKeywords: seq<string> := ["if", "else if", "for", "while", "case", "&&", "||", "?"]

  /** The `complexity.analyze` result. */
  datatype Analysis = Analysis(
    lines: nat,
    functions: nat,
    classes: nat,
    comments: nat,
    cyclomaticComplexity: nat)

  /** `calculateCyclomaticComplexity`: one plus the plain occurrence counts
      of each keyword; every `else if` is counted by both the `if` and the
      `else if` scan. */
  function CyclomaticComplexity(code: string): (n: nat)
    ensures n >= 1 + 2 * Count(Words(["else if"], false), code)
  {
    ElseIfCountedTwice(PlainControlFlowKeywords, code, false);
    1 + KeywordTotal(PlainControlFlowKeywords, code, false)
  }

  /** A `/*` with no `*/` after it starts no comment match. */
  lemma {:induction false} UnclosedCommentsIgnored(code: string)
    requires !Contains(code, "*/")
    ensures Count(BlockComment, code) == 0
  {
    ContainsMeansOccurs(code, "*/");
    forall m | 0 <= m <= |code|
      ensures MatchAt(BlockComment, code, m).None?
    {
      if StartsAt(code, m, "/*") {
        assert FindFrom(code, "*/", m + 2).None?;
      }
    }
    SkipUnmatched(BlockComment, code, 0, |code|);
  }

  /** The lazy `/\/\*[\s\S]*?\*\//g` finds something exactly when some `/*`
      is followed, later and not overlapping it, by a `*/`. */
  lemma BlockCommentsFound(code: string)
    ensures Count(BlockComment, code) > 0 <==>
      exists i: nat, j: nat :: i + 2 <= j && StartsAt(code, i, "/*") && StartsAt(code, j, "*/")
  {
    CountPositiveIffMatch(BlockComment, code, 0);
    if Count(BlockComment, code) > 0 {
      var i := FirstMatch(BlockComment, code, 0).value.0;
      var j := FindFrom(code, "*/", i + 2).value;
      assert i + 2 <= j && StartsAt(code, i, "/*") && StartsAt(code, j, "*/");
    }
    if exists i: nat, j: nat :: i + 2 <= j && StartsAt(code, i, "/*") && StartsAt(code, j, "*/") {
      var i: nat, j: nat :| i + 2 <= j && StartsAt(code, i, "/*") && StartsAt(code, j, "*/");
      assert FindFrom(code, "*/", i + 2).Some?;
      assert MatchAt(BlockComment, code, i).Some?;
    }
  }

  /** Neither `function` nor `class` can overlap itself, so their plain
      scans count every occurrence. */
  lemma KeywordsUnbordered()
    ensures Unbordered("function") && Unbordered("class")
  {
    var f, c := "function", "class";
    forall d | 0 < d < |f|
      ensures f[d..] != f[..|f| - d]
    {
      assert f[d..][0] != f[..|f| - d][0];
    }
    forall d | 0 < d < |c|
      ensures c[d..] != c[..|c| - d]
    {
      assert c[d..][0] != c[..|c| - d][0];
    }
  }

  /** `complexity.analyze`. Lines are one more than the newlines; a
      function or class is any occurrence of the word, inside identifiers
      too; comments are the `//` markers plus the closed block comments. */
  function Analyze(code: string): (r: Analysis)
    ensures r.lines == multiset(code)['\n'] + 1
    ensures r.functions == |Occurrences(code, "function", 0)|
    ensures r.classes == |Occurrences(code, "class", 0)|
    ensures r.functions > 0 <==> Contains(code, "function")
    ensures r.classes > 0 <==> Contains(code, "class")
    ensures !Contains(code, "*/") ==> r.comments == Count(Words(["//"], false), code)
    ensures r.comments == Count(Words(["//"], false), code) + Count(BlockComment, code)
    ensures r.comments > 0 <==> Contains(code, "//") || Count(BlockComment, code) > 0
    ensures r.cyclomaticComplexity == CyclomaticComplexity(code)
    ensures r.cyclomaticComplexity >= 1 + 2 * Count(Words(["else if"], false), code)
  {
    SplitCount(code, '\n');
    PlainCountPositiveIffContains("function", code);
    PlainCountPositiveIffContains("class", code);
    KeywordsUnbordered();
    CountIsOccurrences("function", code, 0);
    CountIsOccurrences("class", code, 0);
    PlainCountPositiveIffContains("//", code);
    assert !Contains(code, "*/") ==> Count(BlockComment, code) == 0 by {
      if !Contains(code, "*/") {
        UnclosedCommentsIgnored(code);
      }
    }
    Analysis(
      |Lines(code)|,
      Count(Words(["function"], false), code),
      Count(Words(["class"], false), code),
      Count(Words(["//"], false), code) + Count(BlockComment, code),
      CyclomaticComplexity(code))
  }

  /** The word inside an identifier counts: `subclass` is one class. */
  lemma SubclassCountsAsClass(code: string)
    requires code == "class Cat extends subclass {}"
    ensures Analyze(code).classes == 2
  {
    ExampleClassOccurrences();
    var o: set<nat> := {0, 21};
    assert |o| == 2;
  }

  lemma ExampleClassOccurrences()
    ensures Occurrences("class Cat extends subclass {}", "class", 0) == {0, 21}
  {
    var s := "class Cat extends subclass {}";
    var k := "class";
    assert s[0..5] == k && s[21..26] == k;
    forall m: nat | m <= |s| && StartsAt(s, m, k)
      ensures m == 0 || m == 21
    {
      assert s[m..m + 5][0] == s[m] && s[m..m + 5][0] == 'c';
    }
  }
}
