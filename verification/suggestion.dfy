/** Review suggestions and the three rules that score them: keyword
    classification, severity, and confidence. Confidence is held in integer
    hundredths (70 stands for 0.7). */
module Suggestions {
  import opened Text

  datatype Kind = Quality | Practice | Bug | Performance | Security

  datatype Severity = Low | Medium | High

  datatype Suggestion = Suggestion(
    kind: Kind,
    content: string,
    confidence: nat,
    severity: Severity,
    improvement: Option<string>,
    codeExample: Option<string>,
    lineNumbers: Option<seq<nat>>)

  /** The text mentions at least one of `words`. */
  predicate MentionsAny(text: string, words: seq<string>) {
    exists k :: k in words && Contains(text, k)
  }

  // ---------------------------------------------------------------------
  // Classification

  const SecurityStems: seq<string> := ["secur", "vulnerab", "exploit", "inject"]
  const PerformanceStems: seq<string> := ["perform", "slow", "memory", "leak", "optimi"]
  const BugStems: seq<string> := ["bug", "error", "crash", "exception", "fix"]
  const PracticeStems: seq<string> := ["practice", "convention", "standard", "pattern"]

  /** Classification rules in the order they are tried. */
  const ClassificationRules: seq<(seq<string>, Kind)> := [
    (SecurityStems, Security),
    (PerformanceStems, Performance),
    (BugStems, Bug),
    (PracticeStems, Practice)
  ]

  /** The kind of the first rule whose stems the text mentions. */
  function FirstMentioned(rules: seq<(seq<string>, Kind)>, text: string): (r: Option<Kind>)
    ensures r.None? <==> forall j :: 0 <= j < |rules| ==> !MentionsAny(text, rules[j].0)
    ensures r.Some? ==> exists j :: 0 <= j < |rules| && r.value == rules[j].1 && MentionsAny(text, rules[j].0)
                          && forall m :: 0 <= m < j ==> !MentionsAny(text, rules[m].0)
  {
    if |rules| == 0 then None
    else if MentionsAny(text, rules[0].0) then Some(rules[0].1)
    else
      var r := FirstMentioned(rules[1..], text);
      assert forall j :: 1 <= j < |rules| ==> rules[1..][j - 1] == rules[j];
      r
  }

  /** Kind of a suggestion from its lower-cased content: security stems,
      then performance, bug and practice stems, and quality otherwise. */
  function Classify(content: string): (k: Kind)
    ensures k == Security <==> MentionsAny(Lower(content), SecurityStems)
    ensures k == Performance <==>
      !MentionsAny(Lower(content), SecurityStems) && MentionsAny(Lower(content), PerformanceStems)
    ensures k == Bug <==>
      && !MentionsAny(Lower(content), SecurityStems) && !MentionsAny(Lower(content), PerformanceStems)
      && MentionsAny(Lower(content), BugStems)
    ensures k == Practice <==>
      && !MentionsAny(Lower(content), SecurityStems) && !MentionsAny(Lower(content), PerformanceStems)
      && !MentionsAny(Lower(content), BugStems) && MentionsAny(Lower(content), PracticeStems)
    ensures k == Quality <==>
      && !MentionsAny(Lower(content), SecurityStems) && !MentionsAny(Lower(content), PerformanceStems)
      && !MentionsAny(Lower(content), BugStems) && !MentionsAny(Lower(content), PracticeStems)
  {
    var r := FirstMentioned(ClassificationRules, Lower(content));
    assert ClassificationRules[0] == (SecurityStems, Security);
    assert ClassificationRules[1] == (PerformanceStems, Performance);
    assert ClassificationRules[2] == (BugStems, Bug);
    assert ClassificationRules[3] == (PracticeStems, Practice);
    match r
    case Some(k) => k
    case None => Quality
  }

  // ---------------------------------------------------------------------
  // Severity

  const HighKeywords: seq<string> :=
    ["security", "vulnerability", "crash", "memory leak", "infinite loop", "deadlock", "critical", "exploit"]
  const MediumKeywords: seq<string> :=
    ["performance", "memory", "complexity", "maintainability", "error handling", "warning"]

  /** A code example that is present and non-empty (JavaScript truthiness). */
  predicate HasCodeExample(s: Suggestion) {
    s.codeExample.Some? && s.codeExample.value != ""
  }

  /** An improvement text longer than 100 characters. */
  predicate LongImprovement(s: Suggestion) {
    s.improvement.Some? && |s.improvement.value| > 100
  }

  /** Severity: a high keyword wins, then a medium keyword, then a detailed
      fix, then the kind. Stated without the rule order, it is high exactly
      when a high keyword is present, or when a security or bug suggestion
      triggers none of the medium-making rules. */
  function SeverityOf(s: Suggestion): (r: Severity)
    ensures r == High <==>
      || MentionsAny(Lower(s.content), HighKeywords)
      || (&& !MentionsAny(Lower(s.content), MediumKeywords)
          && !(HasCodeExample(s) && LongImprovement(s))
          && (s.kind == Security || s.kind == Bug))
    ensures r == Low <==>
      && !MentionsAny(Lower(s.content), HighKeywords)
      && !MentionsAny(Lower(s.content), MediumKeywords)
      && !(HasCodeExample(s) && LongImprovement(s))
      && (s.kind == Quality || s.kind == Practice)
  {
    var content := Lower(s.content);
    if MentionsAny(content, HighKeywords) then High
    else if MentionsAny(content, MediumKeywords) then Medium
    else if HasCodeExample(s) && LongImprovement(s) then Medium
    else if s.kind == Security || s.kind == Bug then High
    else if s.kind == Performance then Medium
    else
      assert s.kind == Quality || s.kind == Practice;
      assert !MentionsAny(Lower(s.content), HighKeywords);
      assert !MentionsAny(Lower(s.content), MediumKeywords);
      Low
  }

  /** Content that mentions security is high severity, whatever its kind. */
  lemma SecurityContentIsHigh(s: Suggestion)
    requires Contains(Lower(s.content), "security")
    ensures SeverityOf(s) == High
  {
    assert "security" in HighKeywords;
  }

  // ---------------------------------------------------------------------
  // Confidence

  /** Base confidence, and the cap, in hundredths. */
  const BaseConfidence: nat := 70
  const MaxConfidence: nat := 100

  /** The signals that each raise confidence by a fixed amount. */
  datatype Signal =
    | LongContent | MentionsLine | LongFix | MentionsExample | CodeShown | LinesGiven
    | SecurityKind | BugKind | PerformanceKind

  const AllSignals: seq<Signal> :=
    [LongContent, MentionsLine, LongFix, MentionsExample, CodeShown, LinesGiven,
     SecurityKind, BugKind, PerformanceKind]

  function Weight(g: Signal): nat {
    match g
    case LongContent => 5
    case MentionsLine => 5
    case LongFix => 5
    case MentionsExample => 5
    case CodeShown => 10
    case LinesGiven => 10
    case SecurityKind => 15
    case BugKind => 10
    case PerformanceKind => 5
  }

  predicate Holds(g: Signal, s: Suggestion) {
    match g
    case LongContent => |s.content| > 100
    case MentionsLine => Contains(s.content, "line")
    case LongFix => LongImprovement(s)
    case MentionsExample => s.improvement.Some? && Contains(s.improvement.value, "example")
    case CodeShown => HasCodeExample(s)
    case LinesGiven => s.lineNumbers.Some? && |s.lineNumbers.value| > 0
    case SecurityKind => s.kind == Security
    case BugKind => s.kind == Bug
    case PerformanceKind => s.kind == Performance
  }

  /** What one signal adds to the confidence of `s`. */
  function Bonus(g: Signal, s: Suggestion): nat {
    if Holds(g, s) then Weight(g) else 0
  }

  /** Sum of the weights of the signals in `gs` that hold of `s`. */
  function Score(gs: seq<Signal>, s: Suggestion): nat {
    if |gs| == 0 then 0 else Bonus(gs[0], s) + Score(gs[1..], s)
  }

  function Min(a: int, b: int): int {
    if a <= b then a else b
  }

  /** Confidence, computed step by step as the service does; it equals the
      base plus the weights of the signals that hold, capped at 1.0. */
  function Confidence(s: Suggestion): (r: nat)
    ensures r == Min(BaseConfidence + Score(AllSignals, s), MaxConfidence)
    ensures BaseConfidence <= r <= MaxConfidence
  {
    var c0 := BaseConfidence;
    var c1 := if |s.content| > 100 then c0 + 5 else c0;
    assert c1 == c0 + Bonus(LongContent, s);
    var c2 := if Contains(s.content, "line") then c1 + 5 else c1;
    assert c2 == c1 + Bonus(MentionsLine, s);
    var c3 := if s.improvement.Some? && |s.improvement.value| > 100 then c2 + 5 else c2;
    assert c3 == c2 + Bonus(LongFix, s);
    var c4 := if s.improvement.Some? && Contains(s.improvement.value, "example") then c3 + 5 else c3;
    assert c4 == c3 + Bonus(MentionsExample, s);
    var c5 := if s.codeExample.Some? && s.codeExample.value != "" then c4 + 10 else c4;
    assert c5 == c4 + Bonus(CodeShown, s);
    var c6 := if s.lineNumbers.Some? && |s.lineNumbers.value| > 0 then c5 + 10 else c5;
    assert c6 == c5 + Bonus(LinesGiven, s);
    var c7 := match s.kind
      case Security => c6 + 15
      case Bug => c6 + 10
      case Performance => c6 + 5
      case _ => c6;
    assert c7 == c6 + Bonus(SecurityKind, s) + Bonus(BugKind, s) + Bonus(PerformanceKind, s);
    ScoreUnfolds(s);
    Min(c7, MaxConfidence)
  }

  lemma ScoreStep(gs: seq<Signal>, s: Suggestion, k: nat)
    requires k < |gs|
    ensures Score(gs[k..], s) == Bonus(gs[k], s) + Score(gs[k + 1..], s)
  {
    assert gs[k..][1..] == gs[k + 1..];
  }

  /** The score of every signal, spelled out one signal at a time. */
  lemma ScoreUnfolds(s: Suggestion)
    ensures Score(AllSignals, s) ==
      Bonus(LongContent, s) + Bonus(MentionsLine, s) + Bonus(LongFix, s) + Bonus(MentionsExample, s)
      + Bonus(CodeShown, s) + Bonus(LinesGiven, s)
      + Bonus(SecurityKind, s) + Bonus(BugKind, s) + Bonus(PerformanceKind, s)
  {
    var gs := AllSignals;
    assert gs[0..] == gs;
    ScoreStep(gs, s, 0);
    ScoreStep(gs, s, 1);
    ScoreStep(gs, s, 2);
    ScoreStep(gs, s, 3);
    ScoreStep(gs, s, 4);
    ScoreStep(gs, s, 5);
    ScoreStep(gs, s, 6);
    ScoreStep(gs, s, 7);
    ScoreStep(gs, s, 8);
    assert gs[9..] == [];
  }

  /** A score never drops when the set of holding signals grows. */
  lemma {:induction false} ScoreMonotone(gs: seq<Signal>, a: Suggestion, b: Suggestion)
    requires forall g :: Holds(g, a) ==> Holds(g, b)
    ensures Score(gs, a) <= Score(gs, b)
  {
    if |gs| > 0 {
      ScoreMonotone(gs[1..], a, b);
    }
  }

  /** Adding a signal never lowers confidence. */
  lemma ConfidenceMonotone(a: Suggestion, b: Suggestion)
    requires forall g :: Holds(g, a) ==> Holds(g, b)
    ensures Confidence(a) <= Confidence(b)
  {
    ScoreMonotone(AllSignals, a, b);
  }

  /** The suggestion with confidence and severity recomputed, as done to
      every parsed suggestion before it is returned. */
  function Rescore(s: Suggestion): (r: Suggestion)
    ensures r.kind == s.kind && r.content == s.content && r.improvement == s.improvement
    ensures r.codeExample == s.codeExample && r.lineNumbers == s.lineNumbers
    ensures r.confidence == Confidence(s) && r.severity == SeverityOf(s)
    ensures BaseConfidence <= r.confidence <= MaxConfidence
    ensures Contains(Lower(s.content), "security") ==> r.severity == High
  {
    assert "security" in HighKeywords;
    s.(confidence := Confidence(s), severity := SeverityOf(s))
  }
}
