/** The suggestion list the analyzer returns: the model's reply parsed and
    rescored, or, when the reply is missing or yields nothing, the built-in
    checks run directly on the code. */
module Review {
  import opened Text
  import opened Patterns
  import opened Suggestions
  import Parse

  // ---------------------------------------------------------------------
  // Line lookup

  /** Line number `n` (1-based) exists and its line contains `pattern`. */
  predicate LineHas(lines: seq<string>, pattern: string, n: nat) {
    1 <= n <= |lines| && Contains(lines[n - 1], pattern)
  }

  /** Numbers of the lines after line `i` that contain `pattern`. */
  function LinesContainingFrom(lines: seq<string>, pattern: string, i: nat): (r: seq<nat>)
    requires i <= |lines|
    ensures forall k :: 0 <= k < |r| ==> i < r[k] && LineHas(lines, pattern, r[k])
    ensures forall k, m :: 0 <= k < m < |r| ==> r[k] < r[m]
    ensures forall n :: i < n && LineHas(lines, pattern, n) ==> n in r
    decreases |lines| - i
  {
    if i == |lines| then []
    else
      var rest := LinesContainingFrom(lines, pattern, i + 1);
      if LineHas(lines, pattern, i + 1) then [i + 1] + rest else rest
  }

  /** `findAllLineNumbers`: the 1-based numbers of the lines containing
      `pattern`, in increasing order, each line once. */
  function FindAllLineNumbers(code: string, pattern: string): (r: seq<nat>)
    ensures forall k :: 0 <= k < |r| ==> LineHas(Lines(code), pattern, r[k])
    ensures forall k, m :: 0 <= k < m < |r| ==> r[k] < r[m]
    ensures forall n :: n in r <==> LineHas(Lines(code), pattern, n)
  {
    LinesContainingFrom(Lines(code), pattern, 0)
  }

  /** First line index from `i` on whose line contains `m`, as a 1-based
      number, or 1 when none does. */
  function FirstLineFrom(lines: seq<string>, m: string, i: nat): (n: nat)
    requires i <= |lines|
    ensures n >= 1
    ensures n == 1 || (i < n <= |lines| && Contains(lines[n - 1], m))
    ensures forall j :: i <= j < |lines| && j + 1 < n ==> !Contains(lines[j], m)
    ensures (forall j :: i <= j < |lines| ==> !Contains(lines[j], m)) ==> n == 1
    ensures (exists j :: i <= j < |lines| && Contains(lines[j], m)) ==> i < n <= |lines| && Contains(lines[n - 1], m)
    decreases |lines| - i
  {
    if i == |lines| then 1
    else if Contains(lines[i], m) then i + 1
    else FirstLineFrom(lines, m, i + 1)
  }

  /** `findLineNumber`: the number of the first line containing `m`, or 1. */
  function FindLineNumber(code: string, m: string): (n: nat)
    ensures 1 <= n <= |Lines(code)|
    ensures n > 1 ==> Contains(Lines(code)[n - 1], m)
    ensures (exists j :: 0 <= j < |Lines(code)| && Contains(Lines(code)[j], m)) ==> Contains(Lines(code)[n - 1], m)
    ensures forall j :: 0 <= j < |Lines(code)| && j + 1 < n ==> !Contains(Lines(code)[j], m)
  {
    FirstLineFrom(Lines(code), m, 0)
  }

  lemma {:induction false} FirstLineIsFirstListed(lines: seq<string>, m: string, i: nat)
    requires i <= |lines|
    ensures var all := LinesContainingFrom(lines, m, i);
      FirstLineFrom(lines, m, i) == if |all| == 0 then 1 else all[0]
    decreases |lines| - i
  {
    if i < |lines| && !LineHas(lines, m, i + 1) {
      FirstLineIsFirstListed(lines, m, i + 1);
    }
  }

  /** The single-line lookup agrees with the all-lines one: it reports the
      first line `findAllLineNumbers` would list, and 1 when that list is empty. */
  lemma FirstOfAll(code: string, m: string)
    ensures var all := FindAllLineNumbers(code, m);
      FindLineNumber(code, m) == if |all| == 0 then 1 else all[0]
  {
    FirstLineIsFirstListed(Lines(code), m, 0);
  }

  lemma {:induction false} NothingListed(lines: seq<string>, m: string, i: nat)
    requires i <= |lines|
    requires forall j :: i <= j < |lines| ==> !Contains(lines[j], m)
    ensures LinesContainingFrom(lines, m, i) == []
    decreases |lines| - i
  {
    if i < |lines| {
      NothingListed(lines, m, i + 1);
    }
  }

  /** No line contains a newline, so text spanning two lines is never
      found: its line is reported as 1 and its list of lines is empty. */
  lemma MultiLineTextIsLineOne(code: string, m: string)
    requires '\n' in m
    ensures FindLineNumber(code, m) == 1
    ensures FindAllLineNumbers(code, m) == []
  {
    var lines := Lines(code);
    SplitPieces(code, '\n');
    var t := IndexOf(m, '\n');
    forall j | 0 <= j < |lines|
      ensures !Contains(lines[j], m)
    {
      forall p: nat
        ensures !StartsAt(lines[j], p, m)
      {
        if p + |m| <= |lines[j]| {
          assert lines[j][p..p + |m|][t] == lines[j][p + t];
          assert lines[j][p + t] != '\n';
        }
      }
      ContainsMeansOccurs(lines[j], m);
    }
    NothingListed(lines, m, 0);
    FirstOfAll(code, m);
  }

  // ---------------------------------------------------------------------
  // Built-in checks

  /** /(if|for|while|switch)/g, matched anywhere, even inside words. */
  const ControlWords := Words(["if", "for", "while", "switch"], false)

  /** /console\.(log|warn|error)/g */
  const ConsoleCalls := Words(["console.log", "console.warn", "console.error"], false)

  /** More than this many control words make the code "complex". */
  const ControlWordLimit: nat := 5

  predicate IsJavaScriptFamily(language: string) {
    language == "typescript" || language == "javascript"
  }

  /** The built-in checks, in the order they run. */
  datatype Check = LongFunctionCheck | ComplexityCheck | ConsoleCheck | AnyTypeCheck | ErrorHandlingCheck

  const Checks: seq<Check> := [LongFunctionCheck, ComplexityCheck, ConsoleCheck, AnyTypeCheck, ErrorHandlingCheck]

  /** Whether a check is run for code in `language`. */
  predicate Applies(c: Check, language: string) {
    match c
    case LongFunctionCheck => true
    case ComplexityCheck => true
    case ConsoleCheck => IsJavaScriptFamily(language)
    case AnyTypeCheck => language == "typescript"
    case ErrorHandlingCheck => IsJavaScriptFamily(language)
  }

  /** Whether a check finds what it looks for in `code`. */
  predicate Detects(c: Check, code: string) {
    match c
    case LongFunctionCheck => Count(LongFunction, code) > 0
    case ComplexityCheck => Count(ControlWords, code) > ControlWordLimit
    case ConsoleCheck => Count(ConsoleCalls, code) > 0
    case AnyTypeCheck => Contains(code, ": any")
    case ErrorHandlingCheck => !Contains(code, "try") && !Contains(code, "catch")
  }

  /** Whether a check reports on `code` written in `language`. */
  predicate Fires(c: Check, code: string, language: string) {
    Applies(c, language) && Detects(c, code)
  }

  const LongFunctionMessage := "Function is too long and may be difficult to maintain"
  const ComplexityMessage := "High cyclomatic complexity detected"
  const ConsoleMessage := "Console statements found in code"
  const AnyTypeMessage := "Usage of 'any' type detected"
  const NoErrorHandlingMessage := "No error handling detected"

  const LongFunctionFix := "Consider breaking down the function into smaller, more focused functions"
  const ComplexityFix := "Consider simplifying control flow and extracting logic into separate functions"
  const ConsoleFix := "Remove or replace console statements with proper logging mechanism for production code"
  const AnyTypeFix := "Replace 'any' with more specific types to improve type safety"
  const ErrorHandlingFix := "Consider adding try-catch blocks around code that may throw errors"

  function Message(c: Check): string {
    match c
    case LongFunctionCheck => LongFunctionMessage
    case ComplexityCheck => ComplexityMessage
    case ConsoleCheck => ConsoleMessage
    case AnyTypeCheck => AnyTypeMessage
    case ErrorHandlingCheck => NoErrorHandlingMessage
  }

  /** The improvement each check proposes. */
  function Fix(c: Check): string {
    match c
    case LongFunctionCheck => LongFunctionFix
    case ComplexityCheck => ComplexityFix
    case ConsoleCheck => ConsoleFix
    case AnyTypeCheck => AnyTypeFix
    case ErrorHandlingCheck => ErrorHandlingFix
  }

  /** Different checks report different messages. */
  lemma MessagesDiffer(c: Check, d: Check)
    ensures Message(c) == Message(d) ==> c == d
  {
    assert LongFunctionMessage != ComplexityMessage && LongFunctionMessage != ConsoleMessage;
    assert LongFunctionMessage != AnyTypeMessage && LongFunctionMessage != NoErrorHandlingMessage;
    assert ComplexityMessage != ConsoleMessage && ComplexityMessage != AnyTypeMessage;
    assert ComplexityMessage != NoErrorHandlingMessage && ConsoleMessage != AnyTypeMessage;
    assert ConsoleMessage != NoErrorHandlingMessage && AnyTypeMessage != NoErrorHandlingMessage;
  }

  /** The line the first long function is reported at: the lookup of its
      whole matched text. */
  function LongFunctionLine(code: string): (n: nat)
    requires FirstMatch(LongFunction, code, 0).Some?
    ensures 1 <= n <= |Lines(code)|
  {
    var m := FirstMatch(LongFunction, code, 0).value;
    FindLineNumber(code, code[m.0..m.1])
  }

  /** The fixed kind, confidence (in hundredths) and severity each check
      reports with. */
  function Seed(c: Check): (Kind, nat, Severity) {
    match c
    case LongFunctionCheck => (Quality, 80, Medium)
    case ComplexityCheck => (Quality, 70, Medium)
    case ConsoleCheck => (Practice, 90, Low)
    case AnyTypeCheck => (Quality, 90, Medium)
    case ErrorHandlingCheck => (Practice, 70, Medium)
  }

  /** The suggestion a firing check adds. */
  function Advice(c: Check, code: string): (s: Suggestion)
    ensures s.content == Message(c)
    ensures (s.kind, s.confidence, s.severity) == Seed(c)
    ensures BaseConfidence <= s.confidence <= MaxConfidence
    ensures s.improvement == Some(Fix(c)) && s.codeExample.None?
    ensures c == LongFunctionCheck ==>
      s.lineNumbers == if FirstMatch(LongFunction, code, 0).Some? then Some([LongFunctionLine(code)]) else None
    ensures c == ConsoleCheck ==> s.lineNumbers == Some(FindAllLineNumbers(code, "console."))
    ensures c == AnyTypeCheck ==> s.lineNumbers == Some(FindAllLineNumbers(code, ": any"))
    ensures c == ComplexityCheck || c == ErrorHandlingCheck ==> s.lineNumbers.None?
  {
    match c
    case LongFunctionCheck =>
      var lines := if FirstMatch(LongFunction, code, 0).Some? then Some([LongFunctionLine(code)]) else None;
      Suggestion(Quality, Message(c), 80, Medium,
        Some(Fix(c)), None, lines)
    case ComplexityCheck =>
      Suggestion(Quality, Message(c), 70, Medium,
        Some(Fix(c)), None, None)
    case ConsoleCheck =>
      Suggestion(Practice, Message(c), 90, Low,
        Some(Fix(c)), None,
        Some(FindAllLineNumbers(code, "console.")))
    case AnyTypeCheck =>
      Suggestion(Quality, Message(c), 90, Medium,
        Some(Fix(c)), None,
        Some(FindAllLineNumbers(code, ": any")))
    case ErrorHandlingCheck =>
      Suggestion(Practice, Message(c), 70, Medium,
        Some(Fix(c)), None, None)
  }

  /** Some suggestion in `r` carries the message `msg`. */
  predicate Reports(r: seq<Suggestion>, msg: string) {
    exists k :: 0 <= k < |r| && r[k].content == msg
  }

  /** What running one check yields: whether it fires, and the suggestion
      it adds when it does. */
  datatype Candidate = Candidate(fires: bool, advice: Suggestion)

  /** The suggestions of the firing candidates, in order. */
  function Collect(cands: seq<Candidate>): (r: seq<Suggestion>)
    ensures |r| <= |cands|
  {
    if |cands| == 0 then []
    else if cands[0].fires then [cands[0].advice] + Collect(cands[1..])
    else Collect(cands[1..])
  }

  /** A message is reported exactly when some firing candidate carries it. */
  lemma {:induction false} CollectReports(cands: seq<Candidate>, msg: string)
    ensures Reports(Collect(cands), msg) <==>
      exists j :: 0 <= j < |cands| && cands[j].fires && cands[j].advice.content == msg
  {
    if |cands| > 0 {
      var tail := cands[1..];
      CollectReports(tail, msg);
      var rest := Collect(tail);
      var r := Collect(cands);
      var head := if cands[0].fires then [cands[0].advice] else [];
      assert r == head + rest;
      if Reports(rest, msg) {
        var k :| 0 <= k < |rest| && rest[k].content == msg;
        assert r[|head| + k] == rest[k];
      }
      if Reports(r, msg) {
        var k :| 0 <= k < |r| && r[k].content == msg;
        if k >= |head| {
          assert r[k] == rest[k - |head|];
          var j :| 0 <= j < |tail| && tail[j].fires && tail[j].advice.content == msg;
          assert cands[j + 1] == tail[j];
        }
      }
      if exists j :: 0 <= j < |cands| && cands[j].fires && cands[j].advice.content == msg {
        var j :| 0 <= j < |cands| && cands[j].fires && cands[j].advice.content == msg;
        if j == 0 {
          assert r[0] == cands[0].advice;
        } else {
          assert tail[j - 1] == cands[j];
        }
      }
    }
  }

  /** Where the `k`-th collected suggestion comes from. */
  lemma {:induction false} CollectSource(cands: seq<Candidate>, k: nat) returns (j: nat)
    requires k < |Collect(cands)|
    ensures j < |cands| && cands[j].fires && Collect(cands)[k] == cands[j].advice
  {
    if cands[0].fires && k == 0 {
      j := 0;
    } else {
      var i := CollectSource(cands[1..], if cands[0].fires then k - 1 else k);
      j := i + 1;
    }
  }

  /** When no candidate from index `m` on fires, at most `m` suggestions result. */
  lemma {:induction false} CollectAtMost(cands: seq<Candidate>, m: nat)
    requires forall j :: m <= j < |cands| ==> !cands[j].fires
    ensures |Collect(cands)| <= m
  {
    if |cands| > 0 {
      assert forall j :: 0 <= j < |cands[1..]| ==> cands[1..][j] == cands[j + 1];
      CollectAtMost(cands[1..], if m == 0 then 0 else m - 1);
    }
  }

  /** Every built-in check, run in order. */
  function Candidates(code: string, language: string): (cands: seq<Candidate>)
    ensures |cands| == |Checks|
    ensures forall j :: 0 <= j < |Checks| ==> cands[j].fires == Fires(Checks[j], code, language)
    ensures forall j :: 0 <= j < |Checks| ==> cands[j].advice == Advice(Checks[j], code)
  {
    seq(|Checks|, j requires 0 <= j < |Checks| => Candidate(Fires(Checks[j], code, language), Advice(Checks[j], code)))
  }

  /** `getDefaultSuggestions`: the advice of each built-in check that fires,
      in the order long function, complexity, console calls, `any` type,
      missing error handling. */
  function DefaultSuggestions(code: string, language: string): (r: seq<Suggestion>)
    ensures |r| <= |Checks|
    ensures forall k :: 0 <= k < |r| ==> BaseConfidence <= r[k].confidence <= MaxConfidence
  {
    var cands := Candidates(code, language);
    var r := Collect(cands);
    forall k | 0 <= k < |r|
      ensures BaseConfidence <= r[k].confidence <= MaxConfidence
    {
      var j := CollectSource(cands, k);
    }
    r
  }

  /** A built-in message is reported exactly when its check fires. */
  lemma DefaultReportsFiring(code: string, language: string, c: Check)
    ensures Reports(DefaultSuggestions(code, language), Message(c)) <==> Fires(c, code, language)
  {
    var cands := Candidates(code, language);
    assert DefaultSuggestions(code, language) == Collect(cands);
    CollectReports(cands, Message(c));
    if Reports(DefaultSuggestions(code, language), Message(c)) {
      var i :| 0 <= i < |cands| && cands[i].fires && cands[i].advice.content == Message(c);
      MessagesDiffer(Checks[i], c);
    }
    if Fires(c, code, language) {
      var j := CheckIndex(c);
      assert cands[j].fires && cands[j].advice.content == Message(c);
    }
  }

  /** Where each check sits in the list that runs. */
  function CheckIndex(c: Check): (j: nat)
    ensures j < |Checks| && Checks[j] == c
  {
    match c
    case LongFunctionCheck => 0
    case ComplexityCheck => 1
    case ConsoleCheck => 2
    case AnyTypeCheck => 3
    case ErrorHandlingCheck => 4
  }

  /** Each built-in message is reported exactly under the condition the
      service tests for it. */
  lemma DefaultSuggestionsReport(code: string, language: string)
    ensures var r := DefaultSuggestions(code, language);
      && (Reports(r, LongFunctionMessage) <==> Count(LongFunction, code) > 0)
      && (Reports(r, ComplexityMessage) <==> Count(ControlWords, code) > ControlWordLimit)
      && (Reports(r, ConsoleMessage) <==> IsJavaScriptFamily(language) && Count(ConsoleCalls, code) > 0)
      && (Reports(r, AnyTypeMessage) <==> language == "typescript" && Contains(code, ": any"))
      && (Reports(r, NoErrorHandlingMessage) <==>
            IsJavaScriptFamily(language) && !Contains(code, "try") && !Contains(code, "catch"))
  {
    DefaultReportsFiring(code, language, LongFunctionCheck);
    DefaultReportsFiring(code, language, ComplexityCheck);
    DefaultReportsFiring(code, language, ConsoleCheck);
    DefaultReportsFiring(code, language, AnyTypeCheck);
    DefaultReportsFiring(code, language, ErrorHandlingCheck);
  }

  /** Only the long-function and complexity checks apply outside TypeScript
      and JavaScript, so other languages get at most two suggestions. */
  lemma OtherLanguagesAtMostTwo(code: string, language: string)
    requires !IsJavaScriptFamily(language)
    ensures |DefaultSuggestions(code, language)| <= 2
  {
    var cands := Candidates(code, language);
    assert DefaultSuggestions(code, language) == Collect(cands);
    assert !Applies(ConsoleCheck, language) && !Applies(AnyTypeCheck, language);
    assert !Applies(ErrorHandlingCheck, language);
    assert Checks[2] == ConsoleCheck && Checks[3] == AnyTypeCheck && Checks[4] == ErrorHandlingCheck;
    assert !cands[2].fires && !cands[3].fires && !cands[4].fires;
    CollectAtMost(cands, 2);
  }

  /** Two collected suggestions come from candidates in the same order. */
  lemma {:induction false} CollectOrder(cands: seq<Candidate>, a: nat, b: nat) returns (i: nat, j: nat)
    requires a < b < |Collect(cands)|
    ensures i < j < |cands| && cands[i].fires && cands[j].fires
    ensures Collect(cands)[a] == cands[i].advice && Collect(cands)[b] == cands[j].advice
  {
    var tail := cands[1..];
    if cands[0].fires {
      assert Collect(cands) == [cands[0].advice] + Collect(tail);
      if a == 0 {
        var j' := CollectSource(tail, b - 1);
        i, j := 0, j' + 1;
      } else {
        var i', j' := CollectOrder(tail, a - 1, b - 1);
        i, j := i' + 1, j' + 1;
      }
    } else {
      assert Collect(cands) == Collect(tail);
      var i', j' := CollectOrder(tail, a, b);
      i, j := i' + 1, j' + 1;
    }
  }

  /** Every built-in suggestion is the advice of a check that fires, with
      that check's fixed seed. */
  lemma DefaultSuggestionSource(code: string, language: string, k: nat) returns (c: Check)
    requires k < |DefaultSuggestions(code, language)|
    ensures Fires(c, code, language)
    ensures DefaultSuggestions(code, language)[k] == Advice(c, code)
    ensures var s := DefaultSuggestions(code, language)[k]; (s.kind, s.confidence, s.severity) == Seed(c)
  {
    var cands := Candidates(code, language);
    assert DefaultSuggestions(code, language) == Collect(cands);
    var j := CollectSource(cands, k);
    c := Checks[j];
  }

  /** Built-in suggestions appear in the fixed order of the checks: long
      function, complexity, console calls, `any` type, error handling. */
  lemma DefaultSuggestionsOrdered(code: string, language: string, a: nat, b: nat) returns (i: nat, j: nat)
    requires a < b < |DefaultSuggestions(code, language)|
    ensures i < j < |Checks|
    ensures Fires(Checks[i], code, language) && Fires(Checks[j], code, language)
    ensures DefaultSuggestions(code, language)[a] == Advice(Checks[i], code)
    ensures DefaultSuggestions(code, language)[b] == Advice(Checks[j], code)
  {
    var cands := Candidates(code, language);
    assert DefaultSuggestions(code, language) == Collect(cands);
    i, j := CollectOrder(cands, a, b);
  }

  /** Console calls are reported together with every line mentioning `console.`. */
  lemma ConsoleAdviceLines(code: string, language: string)
    ensures forall k :: 0 <= k < |DefaultSuggestions(code, language)| ==>
      var s := DefaultSuggestions(code, language)[k];
      s.content == Message(ConsoleCheck) ==> s.lineNumbers == Some(FindAllLineNumbers(code, "console."))
  {
    var cands := Candidates(code, language);
    var r := DefaultSuggestions(code, language);
    assert r == Collect(cands);
    forall k | 0 <= k < |r| && r[k].content == Message(ConsoleCheck)
      ensures r[k].lineNumbers == Some(FindAllLineNumbers(code, "console."))
    {
      var j := CollectSource(cands, k);
      MessagesDiffer(Checks[j], ConsoleCheck);
    }
  }

  // ---------------------------------------------------------------------
  // The model's reply

  /** The suggestions parsed from the reply, each with confidence and
      severity recomputed. */
  function RescoreAll(parsed: seq<Suggestion>): (r: seq<Suggestion>)
    ensures |r| == |parsed|
    ensures forall k :: 0 <= k < |r| ==>
      && r[k] == parsed[k].(confidence := Confidence(parsed[k]), severity := SeverityOf(parsed[k]))
  {
    seq(|parsed|, k requires 0 <= k < |parsed| => Rescore(parsed[k]))
  }

  /** `getAiSuggestions`, given what the text-generation request produced:
      `None` when it failed, otherwise the generated text. A failed request,
      an empty text or a reply without suggestions falls back to the
      built-in checks on the full code. */
  function AiSuggestions(code: string, language: string, reply: Option<string>): (r: seq<Suggestion>)
    ensures (reply.None? || Parse.ParseAiResponse(reply.value) == []) ==> r == DefaultSuggestions(code, language)
    ensures reply.Some? && Parse.ParseAiResponse(reply.value) != [] ==>
      var parsed := Parse.ParseAiResponse(reply.value);
      && r == RescoreAll(parsed)
      && |r| == |parsed|
      && forall k :: 0 <= k < |r| ==>
        && r[k].content == parsed[k].content && r[k].kind == Classify(r[k].content)
        && r[k].lineNumbers == parsed[k].lineNumbers
        && r[k].confidence == Confidence(parsed[k]) && r[k].severity == SeverityOf(parsed[k])
    ensures forall k :: 0 <= k < |r| ==> BaseConfidence <= r[k].confidence <= MaxConfidence
  {
    match reply
    case None => DefaultSuggestions(code, language)
    case Some(text) =>
      if text == "" then
        assert Parse.ParseAiResponse(text) == [] by {
          assert Parse.IssueCount(text, 0) == 0;
        }
        DefaultSuggestions(code, language)
      else
        var parsed := Parse.ParseAiResponse(text);
        if parsed == [] then DefaultSuggestions(code, language) else RescoreAll(parsed)
  }
}
