/** The integer metrics the analysis service computes for a piece of code:
    line count, function and class declarations, cyclomatic complexity, and
    the percentage of lines that repeat an earlier window of lines. */
module Metrics {
  import opened Text
  import opened Patterns

  // ---------------------------------------------------------------------
  // Cyclomatic complexity

  /** The keywords whose `\b`-bounded matches each add one path. The
      operators `&&`, `||` and `?` are not word characters, so `\b` on both
      sides asks for a word character on both sides: `a&&b` counts, while
      `a && b` does not. */
  const ControlFlowKeywords: seq<string> :=
    ["if", "else if", "for", "while", "do", "case", "catch", "&&", "||", "?"]

  /** One plus the bounded matches of each keyword, plus the matches of the
      function-declaration pattern. At least one, and every `else if` and
      every function declaration adds to it. */
  function CyclomaticComplexity(code: string): (n: nat)
    ensures n >= 1 + 2 * Count(Words(["else if"], true), code) + Count(FunctionDecl, code)
  {
    ElseIfCountedTwice(ControlFlowKeywords, code, true);
    1 + KeywordTotal(ControlFlowKeywords, code, true) + Count(FunctionDecl, code)
  }

  /** Operators count only between word characters: spaced `&&` adds
      nothing. */
  lemma SpacedOperatorNotCounted()
    ensures Count(Words(["&&"], true), "a && b") == 0
  {
    var p := Words(["&&"], true);
    var s := "a && b";
    forall i | 0 <= i <= |s|
      ensures MatchAt(p, s, i).None?
    {
      SingleWordMatch("&&", true, s, i);
      assert i + 2 <= |s| ==> s[i..i + 2][0] == s[i] && s[i..i + 2][1] == s[i + 1];
      assert i != 2 ==> !StartsAt(s, i, "&&");
      assert !BoundaryAt(s, 2);
    }
    SkipUnmatched(p, s, 0, |s|);
  }

  /** Between word characters `&&` does count. */
  lemma TightOperatorCounted()
    ensures Count(Words(["&&"], true), "a&&b") == 1
  {
    var p := Words(["&&"], true);
    var s := "a&&b";
    SingleWordMatch("&&", true, s, 0);
    SingleWordMatch("&&", true, s, 1);
    SingleWordMatch("&&", true, s, 3);
    assert s[0..2][0] == 'a';
    assert MatchAt(p, s, 0).None?;
    assert s[1..3] == "&&";
    assert MatchAt(p, s, 1) == Some(3);
    assert MatchAt(p, s, 3).None?;
  }

  /** The third function alternative, `\w+\s*\([^)]*\)\s*{`, also takes a
      control-flow header for a declaration. */
  lemma IfHeaderCountsAsFunction()
    ensures Count(FunctionDecl, "if (x) {") == 1
  {
    var s := "if (x) {";
    assert s[0..8][0] == 'i' && s[0..5][0] == 'i';
    assert !StartsAt(s, 0, "function") && !StartsAt(s, 0, "const");
    assert KeywordAndName(s, 0, "function").None? && KeywordAndName(s, 0, "const").None?;
    assert NamedFunctionHead(s, 0).None? && ArrowBinding(s, 0).None?;
    assert SkipClass(s, 0, WordChar) == 2;
    assert SkipClass(s, 2, Space) == 3;
    assert SkipClass(s, 4, NotCloseParen) == 5;
    assert ParenList(s, 3) == Some(6);
    assert SkipClass(s, 6, Space) == 7;
    assert CallThenBrace(s, 0) == Some(8);
    assert MatchAt(FunctionDecl, s, 0) == Some(8);
  }

  // ---------------------------------------------------------------------
  // Duplicate windows

  /** The shortest and longest windows of lines compared, and the shortest
      trimmed window text that is tallied. */
  const MinWindow: nat := 3
  const MaxWindow: nat := 6
  const MinSequenceLength: nat := 50

  /** The tallied text of lines `[i, i + len)`, if it is long enough. */
  function WindowText(lines: seq<string>, i: nat, len: nat): (w: Option<string>)
    requires i + len <= |lines|
    ensures w.Some? ==> |w.value| >= MinSequenceLength
  {
    var t := Trim(Join(lines[i..i + len], "\n"));
    if |t| < MinSequenceLength then None else Some(t)
  }

  /** Window texts starting at line `i`, lengths `len` up to the longest
      window that fits, in the order the inner loop visits them; each is at
      least 50 characters long. */
  function WindowsAt(lines: seq<string>, i: nat, len: nat): (ws: seq<string>)
    ensures forall k :: 0 <= k < |ws| ==> |ws[k]| >= MinSequenceLength
    decreases MaxWindow + 1 - len
  {
    if len > MaxWindow || i + len > |lines| then []
    else
      var w := WindowText(lines, i, len);
      (if w.Some? then [w.value] else []) + WindowsAt(lines, i, len + 1)
  }

  /** Window texts of every start line from `i` on, in loop order. */
  function WindowsFrom(lines: seq<string>, i: nat): (ws: seq<string>)
    ensures forall k :: 0 <= k < |ws| ==> |ws[k]| >= MinSequenceLength
    ensures i + MinWindow > |lines| ==> ws == []
    decreases |lines| - i
  {
    if i + MinWindow > |lines| then [] else WindowsAt(lines, i, MinWindow) + WindowsFrom(lines, i + 1)
  }

  /** The windows, as (first line, length), of 3 to 6 lines starting at line
      `i` or later whose trimmed text is `t`. */
  function Slots(lines: seq<string>, t: string, i: nat): set<(nat, nat)> {
    set a: nat, len: nat | i <= a < |lines| && MinWindow <= len <= MaxWindow && a + len <= |lines|
      && WindowText(lines, a, len) == Some(t) :: (a, len)
  }

  /** The same, for the one start line `i` and lengths from `len` on. */
  function SlotsAt(lines: seq<string>, t: string, i: nat, len: nat): set<(nat, nat)> {
    set l: nat | len <= l <= MaxWindow && i + l <= |lines| && WindowText(lines, i, l) == Some(t) :: (i, l)
  }

  /** The slots at line `i` split into length `len` and the longer ones. */
  lemma SlotsAtStep(lines: seq<string>, t: string, i: nat, len: nat)
    requires len <= MaxWindow && i + len <= |lines|
    ensures |SlotsAt(lines, t, i, len)| ==
      (if WindowText(lines, i, len) == Some(t) then 1 else 0) + |SlotsAt(lines, t, i, len + 1)|
  {
    var rest := SlotsAt(lines, t, i, len + 1);
    var here: set<(nat, nat)> := if WindowText(lines, i, len) == Some(t) then {(i, len)} else {};
    forall x | x in SlotsAt(lines, t, i, len)
      ensures x in here + rest
    {
      assert x.0 == i && len <= x.1;
    }
    assert here + rest <= SlotsAt(lines, t, i, len);
    assert SlotsAt(lines, t, i, len) == here + rest;
    assert (i, len) !in rest;
  }

  /** No window of an allowed length starts at `i` once `len` is too long. */
  lemma NoSlotsAt(lines: seq<string>, t: string, i: nat, len: nat)
    requires len > MaxWindow || i + len > |lines|
    ensures SlotsAt(lines, t, i, len) == {}
  {
  }

  /** The window of length `len` at line `i` comes first, then the longer ones. */
  lemma WindowsAtStep(lines: seq<string>, t: string, i: nat, len: nat)
    requires len <= MaxWindow && i + len <= |lines|
    ensures multiset(WindowsAt(lines, i, len))[t] ==
      (if WindowText(lines, i, len) == Some(t) then 1 else 0) + multiset(WindowsAt(lines, i, len + 1))[t]
  {
    var w := WindowText(lines, i, len);
    var rest := WindowsAt(lines, i, len + 1);
    if w.Some? {
      assert WindowsAt(lines, i, len) == [w.value] + rest;
      assert multiset([w.value] + rest) == multiset([w.value]) + multiset(rest);
    } else {
      assert WindowsAt(lines, i, len) == rest;
    }
  }

  lemma {:induction false} WindowsAtSlots(lines: seq<string>, t: string, i: nat, len: nat)
    ensures multiset(WindowsAt(lines, i, len))[t] == |SlotsAt(lines, t, i, len)|
    decreases MaxWindow + 1 - len
  {
    if len > MaxWindow || i + len > |lines| {
      NoSlotsAt(lines, t, i, len);
    } else {
      WindowsAtSlots(lines, t, i, len + 1);
      SlotsAtStep(lines, t, i, len);
      WindowsAtStep(lines, t, i, len);
    }
  }

  /** The slots from line `i` on are those at `i` and those from `i + 1` on. */
  lemma SlotsStep(lines: seq<string>, t: string, i: nat)
    requires i + MinWindow <= |lines|
    ensures |Slots(lines, t, i)| == |SlotsAt(lines, t, i, MinWindow)| + |Slots(lines, t, i + 1)|
  {
    var here := SlotsAt(lines, t, i, MinWindow);
    var later := Slots(lines, t, i + 1);
    assert Slots(lines, t, i) == here + later;
    assert here * later == {};
  }

  /** Every window of 3 to 6 lines whose trimmed text reaches 50 characters
      is tallied, once per window: a text occurs in the list exactly as often
      as there are such windows with that text. */
  lemma {:induction false} WindowsFromSlots(lines: seq<string>, t: string, i: nat)
    ensures multiset(WindowsFrom(lines, i))[t] == |Slots(lines, t, i)|
    decreases |lines| - i
  {
    if i + MinWindow > |lines| {
      assert Slots(lines, t, i) == {};
    } else {
      var here := WindowsAt(lines, i, MinWindow);
      var later := WindowsFrom(lines, i + 1);
      WindowsAtSlots(lines, t, i, MinWindow);
      WindowsFromSlots(lines, t, i + 1);
      SlotsStep(lines, t, i);
      assert WindowsFrom(lines, i) == here + later;
      assert multiset(here + later) == multiset(here) + multiset(later);
    }
  }

  /** A text is among the tallied windows exactly when some window of 3 to 6
      lines has it as its trimmed text. */
  lemma WindowsFromHas(lines: seq<string>, t: string, i: nat)
    ensures t in WindowsFrom(lines, i) <==>
      exists a: nat, len: nat :: i <= a < |lines| && MinWindow <= len <= MaxWindow && a + len <= |lines|
        && WindowText(lines, a, len) == Some(t)
  {
    var slots := Slots(lines, t, i);
    WindowsFromSlots(lines, t, i);
    assert t in WindowsFrom(lines, i) <==> |slots| > 0;
    if |slots| > 0 {
      var x :| x in slots;
      assert i <= x.0 < |lines| && MinWindow <= x.1 <= MaxWindow && x.0 + x.1 <= |lines|;
      assert WindowText(lines, x.0, x.1) == Some(t);
    }
    if exists a: nat, len: nat :: i <= a < |lines| && MinWindow <= len <= MaxWindow && a + len <= |lines|
        && WindowText(lines, a, len) == Some(t) {
      var a: nat, len: nat :| i <= a < |lines| && MinWindow <= len <= MaxWindow && a + len <= |lines|
        && WindowText(lines, a, len) == Some(t);
      assert (a, len) in slots;
    }
  }

  /** One key of the insertion-ordered map from window text to count. */
  datatype Entry = Entry(text: string, count: nat)

  predicate HasKey(tally: seq<Entry>, t: string) {
    exists j :: 0 <= j < |tally| && tally[j].text == t
  }

  /** A key is the first entry's or one of the rest's. */
  lemma HasKeySplit(tally: seq<Entry>, u: string)
    requires |tally| > 0
    ensures HasKey(tally, u) <==> tally[0].text == u || HasKey(tally[1..], u)
  {
    if HasKey(tally, u) && tally[0].text != u {
      var j :| 0 <= j < |tally| && tally[j].text == u;
      assert tally[1..][j - 1].text == u;
    }
    if HasKey(tally[1..], u) {
      var j :| 0 <= j < |tally[1..]| && tally[1..][j].text == u;
      assert tally[j + 1].text == u;
    }
  }

  /** `sequences.set(t, (sequences.get(t) || 0) + 1)`: the count of an
      existing key goes up by one, a new key is appended with count 1. */
  function Bump(tally: seq<Entry>, t: string): (r: seq<Entry>)
    requires forall j :: 0 <= j < |tally| ==> tally[j].count >= 1
    ensures |r| > 0 && forall j :: 0 <= j < |r| ==> r[j].count >= 1
    ensures forall u :: HasKey(r, u) <==> HasKey(tally, u) || u == t
    ensures Excess(r) == Excess(tally) + (if HasKey(tally, t) then LineCount(t) else 0)
  {
    if |tally| == 0 then
      var r := [Entry(t, 1)];
      assert r[1..] == [];
      assert r[0].text == t;
      forall u ensures HasKey(r, u) <==> u == t { HasKeySplit(r, u); }
      r
    else
      var r := if tally[0].text == t then [tally[0].(count := tally[0].count + 1)] + tally[1..]
               else [tally[0]] + Bump(tally[1..], t);
      assert r[1..] == if tally[0].text == t then tally[1..] else Bump(tally[1..], t);
      forall u ensures HasKey(r, u) <==> HasKey(tally, u) || u == t {
        HasKeySplit(r, u);
        HasKeySplit(tally, u);
      }
      HasKeySplit(tally, t);
      ExtraStep(tally[0]);
      r
  }

  /** One more occurrence of a key that is already there adds its line count. */
  lemma ExtraStep(e: Entry)
    ensures e.count >= 1 ==> Extra(e.(count := e.count + 1)) == Extra(e) + LineCount(e.text)
  {
    if e.count >= 1 {
      var n := LineCount(e.text);
      var c: nat := e.count - 1;
      assert Extra(e.(count := e.count + 1)) == n * (c + 1);
      assert Extra(e) == n * c;
      MulStep(n, c);
    }
  }

  lemma MulStep(n: nat, c: nat)
    ensures n * (c + 1) == n * c + n
  {
  }

  /** The map after the loop has tallied `occs` in order. */
  function Tally(occs: seq<string>): (r: seq<Entry>)
    ensures forall j :: 0 <= j < |r| ==> r[j].count >= 1
    ensures forall u :: HasKey(r, u) <==> u in occs
  {
    if |occs| == 0 then []
    else
      var init := occs[..|occs| - 1];
      assert occs == init + [occs[|occs| - 1]];
      Bump(Tally(init), occs[|occs| - 1])
  }

  /** Lines of a tallied text: `split("\n").length`. */
  function LineCount(t: string): nat {
    |Lines(t)|
  }

  /** The `forEach` over the map: every key seen more than once adds its
      line count once per extra occurrence. */
  function Excess(tally: seq<Entry>): nat {
    if |tally| == 0 then 0 else Extra(tally[0]) + Excess(tally[1..])
  }

  /** What one key adds: its line count for every occurrence after the first. */
  function Extra(e: Entry): nat {
    if e.count > 1 then LineCount(e.text) * (e.count - 1) as nat else 0
  }

  /** Independent reading of the tally: every occurrence of a text that
      already occurred earlier adds its line count. */
  function RepeatLines(occs: seq<string>): nat {
    if |occs| == 0 then 0
    else
      var last := occs[|occs| - 1];
      var init := occs[..|occs| - 1];
      RepeatLines(init) + (if last in init then LineCount(last) else 0)
  }

  /** Summing over the map's counts is the same as charging each repeated
      occurrence its line count. */
  lemma {:induction false} ExcessIsRepeatLines(occs: seq<string>)
    ensures Excess(Tally(occs)) == RepeatLines(occs)
  {
    if |occs| > 0 {
      ExcessIsRepeatLines(occs[..|occs| - 1]);
    }
  }

  /** A text that never repeats adds nothing. */
  lemma {:induction false} DistinctWindowsNoRepeats(occs: seq<string>)
    requires forall a, b :: 0 <= a < b < |occs| ==> occs[a] != occs[b]
    ensures RepeatLines(occs) == 0
  {
    if |occs| > 0 {
      var init := occs[..|occs| - 1];
      DistinctWindowsNoRepeats(init);
      assert forall a :: 0 <= a < |init| ==> init[a] == occs[a];
    }
  }

  /** `part / whole * 100`, exactly. */
  function Percentage(part: nat, whole: nat): (r: real)
    requires whole > 0
    ensures r >= 0.0
    ensures part == 0 ==> r == 0.0
  {
    (part as real / whole as real) * 100.0
  }

  /** `calculateDuplicateCode`: the tallied repeat lines as a percentage of
      all lines. Never negative, zero for fewer than three lines, and with no
      upper clamp. */
  function DuplicatePercentage(code: string): (r: real)
    ensures r >= 0.0
    ensures |Lines(code)| < MinWindow ==> r == 0.0
    ensures r == Percentage(RepeatLines(WindowsFrom(Lines(code), 0)), |Lines(code)|)
  {
    var lines := Lines(code);
    var duplicateLines := Excess(Tally(WindowsFrom(lines, 0)));
    ExcessIsRepeatLines(WindowsFrom(lines, 0));
    Percentage(duplicateLines, |lines|)
  }

  // ---------------------------------------------------------------------
  // Class declarations

  /** `class`, then at least one whitespace character, then a word
      character, starting at `m`. */
  predicate ClassHeadAt(s: string, m: nat) {
    && StartsAt(s, m, "class")
    && exists j :: m + 5 < j < |s| && IsWordChar(s[j]) && forall t :: m + 5 <= t < j ==> IsSpace(s[t])
  }

  /** `class\s+\w+` matches at `m` exactly where a class head starts. */
  lemma ClassMatchIffHead(s: string, m: nat)
    requires m <= |s|
    ensures MatchAt(ClassDecl, s, m).Some? <==> ClassHeadAt(s, m)
  {
    if StartsAt(s, m, "class") {
      var a := SkipClass(s, m + 5, Space);
      if MatchAt(ClassDecl, s, m).Some? {
        var b := SkipClass(s, a, WordChar);
        assert a > m + 5 && b > a;
        assert InClass(s[a], WordChar);
      }
      if ClassHeadAt(s, m) {
        var j :| m + 5 < j < |s| && IsWordChar(s[j]) && forall t :: m + 5 <= t < j ==> IsSpace(s[t]);
        assert !IsSpace(s[j]);
        assert a == j;
        assert InClass(s[a], WordChar);
      }
    }
  }

  /** `(code.match(/class\s+\w+/g) || []).length` is positive exactly when
      some `class` is followed by whitespace and a word character. */
  lemma ClassesCounted(code: string)
    ensures Count(ClassDecl, code) > 0 <==> exists m: nat :: m <= |code| && ClassHeadAt(code, m)
  {
    CountPositiveIffMatch(ClassDecl, code, 0);
    if Count(ClassDecl, code) > 0 {
      var m := FirstMatch(ClassDecl, code, 0).value.0;
      ClassMatchIffHead(code, m);
    }
    if exists m: nat :: m <= |code| && ClassHeadAt(code, m) {
      var m: nat :| m <= |code| && ClassHeadAt(code, m);
      ClassMatchIffHead(code, m);
    }
  }

  // ---------------------------------------------------------------------
  // The record

  /** The integer metrics of one analysis (the maintainability index, a
      floating-point formula, is not part of this model). */
  datatype ComplexityMetrics = ComplexityMetrics(
    lines: nat,
    functions: nat,
    classes: nat,
    cyclomaticComplexity: nat,
    duplicateCodePercentage: real)

  /** `calculateComplexity`, without the maintainability index. */
  function CalculateComplexity(code: string): (m: ComplexityMetrics)
    ensures m.lines == multiset(code)['\n'] + 1
    ensures m.functions == Count(FunctionDecl, code)
    ensures m.classes == Count(ClassDecl, code)
    ensures m.classes > 0 <==> exists p: nat :: p <= |code| && ClassHeadAt(code, p)
    ensures m.cyclomaticComplexity == CyclomaticComplexity(code)
    ensures m.duplicateCodePercentage == DuplicatePercentage(code)
    ensures m.cyclomaticComplexity >= 1 + m.functions
    ensures m.duplicateCodePercentage >= 0.0
    ensures m.lines < MinWindow ==> m.duplicateCodePercentage == 0.0
  {
    SplitCount(code, '\n');
    ClassesCounted(code);
    ComplexityMetrics(
      |Lines(code)|,
      Count(FunctionDecl, code),
      Count(ClassDecl, code),
      CyclomaticComplexity(code),
      DuplicatePercentage(code))
  }
}
