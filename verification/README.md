# Code analysis service — a Dafny model of its text analysis

The service reviews a piece of source code in two ways. It asks a
text-generation model for suggestions and falls back to built-in checks
when that fails. It also computes complexity metrics. Everything between
the network call and the HTTP response is plain text processing, and that
is what this project models and proves properties of:

- **Truncation** keeps the code sent for review under a word budget of 800. Words are
  estimated with `split(/\s+/)`. When the whole text is over budget, the
  code is cut in front of the first line at which the running per-line
  estimate exceeds the budget.
- **Parse** turns the generated text into suggestions:
  - it splits the text in front of every `ISSUE:`, `IMPROVEMENT:` and
    `CODE:` marker;
  - it captures the text after each marker;
  - it reads a `line(s) (number(s)):` list out of the issue text.
- **Suggestions** covers three things:
  - keyword classification into security, performance, bug, practice and
    quality;
  - severity from the high and medium keyword lists, the detail of the
    improvement and the kind;
  - confidence as a capped sum of bonuses.
- **Review** covers:
  - the line lookups `findLineNumber` and `findAllLineNumbers`;
  - the five built-in checks of `getDefaultSuggestions`;
  - `getAiSuggestions`, which is given the outcome of the text-generation
    request as a parameter.
- **Metrics** covers:
  - the service's cyclomatic complexity, which counts keywords with word
    boundaries plus function-like heads;
  - the duplicate-code percentage, built from a tally of 3–6 line windows;
  - the lines, functions and classes of `calculateComplexity`.
- **Utils** is the stand-alone `complexity.analyze` with its plain
  substring counts.

Two shared modules sit underneath:

- **Text** holds characters, `split`, `join`, `trim`, lower-casing and
  decimal parsing.
- **Patterns** models the regular expressions. Each one is a deterministic
  matcher at a position, and a global scan is leftmost and non-overlapping,
  as `String.prototype.match` with the `g` flag is.

Strings are `seq<char>`. Confidences are whole hundredths: the source's
`0.7` is `70` and its cap `1.0` is `100`.

## Model

| member | source | states |
|---|---|---|
| Truncation.TruncateCodeIfNeeded | src/services/codeanalysis-service.ts:392-418 | Within budget the code comes back whole and not truncated. Over budget it is truncated: the result is the first k lines rejoined, where k is the first line at which the running estimate exceeds the budget. Either way the result is a prefix of the code, and its own word estimate is within the budget of 800. |
| Truncation.LinesCountAtLeastWhole | src/services/codeanalysis-service.ts:396-412 | The sum of the per-line word estimates is never below the whole-text estimate, so an over-budget text always has a line at which the loop stops. |
| Truncation.WordEstimateCountsRuns | src/services/codeanalysis-service.ts:396 | The `split(/\s+/)` estimate is one more than the number of whitespace runs. The empty text counts as one word, and leading or trailing whitespace adds a piece. |
| Truncation.WordEstimateSubadditive | src/services/codeanalysis-service.ts:396-407 | Gluing two texts gives at most the sum of their estimates minus one. |
| Truncation.CutoffFrom | src/services/codeanalysis-service.ts:402-412 | When the per-line total exceeds the budget, the loop stops at the first line where the running total goes over and at no earlier line. |
| Truncation.JoinEstimate | src/services/codeanalysis-service.ts:406-415 | Rejoining lines with newlines never estimates more words than the lines' per-line estimates add up to, so the kept lines stay within the running total the loop checked. |
| Truncation.LinePrefixIsPrefix | src/services/codeanalysis-service.ts:415 | Rejoining any number of leading lines with newlines gives a prefix of the text. |
| Parse.Sections | src/services/codeanalysis-service.ts:152 | Splitting in front of markers loses nothing: the sections concatenate back to the text. Every section after the first begins with a marker, no section has a marker anywhere else, and there are no more `ISSUE:`-headed sections than `ISSUE:` occurrences. A non-empty text gives no empty section, since the split never cuts at the start. |
| Parse.Capture | src/services/codeanalysis-service.ts:165-181 | A marker's capture exists exactly when the marker occurs in the section. It is the text right after the first occurrence of the marker, up to the first stop marker after it or the end of the section, whichever comes first: no stop marker starts inside it, and one starts right after it unless the section ends there. |
| Parse.IsolatedSectionSuggestion | src/services/codeanalysis-service.ts:155-196 | A section yields a suggestion exactly when it starts with `ISSUE:` and the trimmed rest is non-empty. Improvement and code captures are never present, because their markers always open sections of their own. |
| Parse.IssueRunsToEnd | src/services/codeanalysis-service.ts:165 | In a section that starts with `ISSUE:`, the issue text runs to the end of the section. |
| Parse.NotCaptured | src/services/codeanalysis-service.ts:172-181 | A marker that does not open a section is never found inside it. |
| Parse.NumberList | src/services/codeanalysis-service.ts:184-186 | A list is found exactly when the pattern matches at some position. It is then the list of the leftmost match, and it starts and ends with a digit and holds only digits, whitespace, `-` and `,`. |
| Parse.NumberStartAt | src/services/codeanalysis-service.ts:184-185 | The pattern matches at a position only where `line` starts there, ignoring ASCII case. Everything between `line` and the first digit is whitespace, a colon, or a letter of `s`/`number`. |
| Parse.NumberStartAtIff | src/services/codeanalysis-service.ts:184-185 | The greedy reading finds a list starting at a digit exactly when some reading of `line[s]?\s*(?:number[s]?)?:?\s*` (any choice for each optional part and each repetition) leads from the position to that digit. So every text of that shape, such as `line 5` or `Lines: 3`, matches, and the list starts where the pattern says. |
| Parse.NumberMatchFrom | src/services/codeanalysis-service.ts:184-185 | The global scan finds the leftmost position at which the pattern matches, and none before it. None is found only when no position matches. |
| Parse.ListFrom | src/services/codeanalysis-service.ts:185 | The list is the text starting at the first digit. Every stretch between two of its digit runs is exactly `\s*[-,]\s*`: whitespace, one `-` or `,`, and whitespace. It ends before a non-digit, and no further `[-,]` separator followed by a digit could extend it, so the greedy repetition is maximal. |
| Parse.ListFromUnique | src/services/codeanalysis-service.ts:185 | Any text at the first digit that starts and ends with a digit, whose gaps are all `\s*[-,]\s*`, that is followed by no digit and that no further repetition could extend, is the captured list. So the contract of `ListFrom` determines the capture. |
| Parse.NextNumber | src/services/codeanalysis-service.ts:185 | Another number is taken only after whitespace, exactly one `-` or `,`, and more whitespace. When none is taken, no such continuation follows. |
| Parse.LineNumbersAreDigitRuns | src/services/codeanalysis-service.ts:184-192 | The line numbers are the decimal values of the digit runs of the captured list: in order, at least one, none dropped. |
| Parse.ParseAiResponse | src/services/codeanalysis-service.ts:150-200 | Parsing gives at most one suggestion per `ISSUE:` occurrence. Each has non-empty content, the kind its content classifies to, confidence 70, severity medium, no improvement or code example, and the line numbers read from its content. |
| Parse.ParseIsIssueSections | src/services/codeanalysis-service.ts:152-197 | Parsing is exactly one suggestion per `ISSUE:` section with text, in section order. |
| Parse.AtMostOnePerHead | src/services/codeanalysis-service.ts:154-196 | No section yields more than one suggestion. |
| Suggestions.Classify | src/services/codeanalysis-service.ts:281-323 | The kind is security exactly when the lower-cased content mentions a security stem. Performance, bug and practice each hold exactly when their stems are mentioned and no earlier group's are. Quality holds exactly when none of the groups is mentioned. |
| Suggestions.SeverityOf | src/services/codeanalysis-service.ts:325-358 | Severity is high exactly when a high keyword is mentioned, or when the kind is security or bug and no medium keyword, code example or long improvement applies. It is low exactly when no keyword, no code example with a long improvement, and a quality or practice kind, with the keyword lists of lines 31-49. |
| Suggestions.SecurityContentIsHigh | src/services/codeanalysis-service.ts:331-335 | Content that mentions "security" is always high severity. |
| Suggestions.Confidence | src/services/codeanalysis-service.ts:360-390 | Confidence is the base 70 plus the weights of the signals that hold, capped at 100. It always lies between 70 and 100. |
| Suggestions.ConfidenceMonotone | src/services/codeanalysis-service.ts:363-386 | A suggestion with at least the signals of another never has lower confidence. |
| Suggestions.Rescore | src/services/codeanalysis-service.ts:111-115 | Rescoring keeps kind, content, improvement, code example and line numbers. The new confidence and severity are those the scoring rules give for the suggestion, so the confidence is within bounds and security content is high. |
| Review.FindAllLineNumbers | src/services/codeanalysis-service.ts:567-573 | The result lists, strictly increasing, exactly the 1-based numbers of the lines containing the pattern. |
| Review.FindLineNumber | src/services/codeanalysis-service.ts:558-566 | The number is a valid line. When some line contains the text, the numbered line contains it and no earlier line does. When it is above 1, that line contains the text. |
| Review.FirstLineFrom | src/services/codeanalysis-service.ts:558-566 | The scan from a line on stops at the first line containing the text, or gives 1 when no line from there does. |
| Review.FirstOfAll | src/services/codeanalysis-service.ts:558-573 | The single lookup is the first of all the lines listed, or 1 when none is. |
| Review.MultiLineTextIsLineOne | src/services/codeanalysis-service.ts:220 | Text spanning a newline is on no single line, so a long-function match that spans lines is reported at line 1. |
| Review.Advice | src/services/codeanalysis-service.ts:208-275 | Each check's suggestion carries its own message, its own improvement and its fixed kind, confidence and severity, and never a code example. Confidence is within bounds. The long-function check lists the line of the first match. The console and `any` checks list every line mentioning `console.` or `: any`. The complexity and error-handling checks list no lines. |
| Review.DefaultSuggestionsReport | src/services/codeanalysis-service.ts:208-276 | Each built-in message is reported exactly when its condition holds in the code and language. |
| Review.DefaultReportsFiring | src/services/codeanalysis-service.ts:206-278 | A check's message appears in the result exactly when that check fires. |
| Review.DefaultSuggestionSource | src/services/codeanalysis-service.ts:206-278 | Every built-in suggestion is the advice of a check that fires, with that check's fixed seed. |
| Review.DefaultSuggestionsOrdered | src/services/codeanalysis-service.ts:208-275 | Built-in suggestions come out in the fixed order of their checks. |
| Review.OtherLanguagesAtMostTwo | src/services/codeanalysis-service.ts:237-276 | Outside TypeScript and JavaScript at most two suggestions are given. |
| Review.ConsoleAdviceLines | src/services/codeanalysis-service.ts:239-250 | The console suggestion lists every line mentioning `console.`. |
| Review.DefaultSuggestions | src/services/codeanalysis-service.ts:202-279 | At most one suggestion per check, each with confidence within bounds. |
| Review.RescoreAll | src/services/codeanalysis-service.ts:111-115 | Every parsed suggestion is kept in place, with only confidence and severity recomputed. |
| Review.AiSuggestions | src/services/codeanalysis-service.ts:75-124 | A failed request or a reply without suggestions falls back to the built-in checks. Otherwise the result is the parsed suggestions in order, each rescored: content, kind and line numbers kept, confidence and severity recomputed by the scoring rules. Confidence is always within bounds. |
| Metrics.CyclomaticComplexity | src/services/codeanalysis-service.ts:454-484 | The complexity is at least one plus the function-like heads plus twice each bounded `else if`, since both the `if` and the `else if` scans count it. |
| Metrics.SpacedOperatorNotCounted | src/services/codeanalysis-service.ts:470 | `\b&&\b` does not match a spaced `a && b`. |
| Metrics.TightOperatorCounted | src/services/codeanalysis-service.ts:470 | `\b&&\b` matches once in `a&&b`. |
| Metrics.IfHeaderCountsAsFunction | src/services/codeanalysis-service.ts:476-478 | The function pattern counts the control header `if (x) {` as a function. |
| Metrics.WindowsFrom | src/services/codeanalysis-service.ts:532-542 | Every window text kept is at least 50 characters long after trimming. Fewer than three lines give no windows. |
| Metrics.WindowsFromSlots | src/services/codeanalysis-service.ts:532-544 | A text occurs among the tallied windows exactly as often as there are windows of 3 to 6 lines whose trimmed text it is. |
| Metrics.WindowsFromHas | src/services/codeanalysis-service.ts:532-544 | A text is tallied exactly when some window of 3 to 6 lines has it as its trimmed text. |
| Metrics.Bump | src/services/codeanalysis-service.ts:544 | Counting a window adds exactly that key to the tally. The excess grows by the window's line count exactly when the window was already there. |
| Metrics.Tally | src/services/codeanalysis-service.ts:530-546 | The tally holds exactly the window texts seen, each with a positive count. |
| Metrics.ExcessIsRepeatLines | src/services/codeanalysis-service.ts:548-553 | Summing `lines × (count − 1)` over the tally equals summing, over every occurrence after a key's first, that window's line count. |
| Metrics.DistinctWindowsNoRepeats | src/services/codeanalysis-service.ts:548-553 | When no window text repeats, nothing is counted as duplicate. |
| Metrics.DuplicatePercentage | src/services/codeanalysis-service.ts:526-556 | The percentage is the repeated window lines over the line count, times 100. It is never negative, and it is 0 for fewer than three lines. |
| Metrics.CalculateComplexity | src/services/codeanalysis-service.ts:420-437 | Lines are one more than the newlines. Functions and classes are the global match counts of their patterns, and the class count is positive exactly when some `class` is followed by whitespace and a word character. Complexity and duplicate percentage are those of their own functions, so complexity is at least one plus the function count and the percentage is never negative, and 0 below three lines. |
| Metrics.ClassMatchIffHead | src/services/codeanalysis-service.ts:428 | `class\s+\w+` matches at a position exactly when `class`, at least one whitespace character and a word character start there. |
| Metrics.ClassesCounted | src/services/codeanalysis-service.ts:428 | The class count is positive exactly when such a class head occurs somewhere in the code. |
| Patterns.CountPositiveIffMatch | src/services/codeanalysis-service.ts:212 | A global match succeeds exactly when the pattern matches at some position. |
| Patterns.IfCoversElseIf | src/utils/utils.ts:22-40 | Every `else if` occurrence contains an `if` occurrence, so the `if` count is at least the `else if` count. |
| Patterns.ElseIfCountedTwice | src/services/codeanalysis-service.ts:455-475 | Over the keyword list, each `else if` adds at least two. |
| Patterns.CountIsOccurrences | src/utils/utils.ts:5-6 | For a word that cannot overlap itself, the global scan counts exactly the positions at which the word starts. |
| Patterns.OperatorNeedsWordNeighbours | src/services/codeanalysis-service.ts:470 | An operator of non-word characters written between `\b`s matches only with a word character right before and right after it. |
| Patterns.PlainCountPositiveIffContains | src/utils/utils.ts:5-8 | A plain substring scan finds something exactly when the text contains the substring. |
| Utils.Analyze | src/utils/utils.ts:1-19 | Lines are one more than the newlines. Functions and classes are exactly the number of positions at which the word starts, so they are positive exactly when the word occurs. Comments are the `//` count plus the block-comment count. They are positive exactly when `//` occurs or a closed block comment does, and without `*/` they are just the `//` count. Cyclomatic complexity is that of `calculateCyclomaticComplexity`, so it counts each `else if` at least twice. |
| Utils.BlockCommentsFound | src/utils/utils.ts:8 | The lazy block-comment scan finds something exactly when some `/*` is followed, later and without overlapping it, by a `*/`. |
| Utils.CyclomaticComplexity | src/utils/utils.ts:21-43 | The complexity is at least one plus twice the `else if` occurrences. |
| Utils.UnclosedCommentsIgnored | src/utils/utils.ts:9 | Without `*/` no block comment is counted. |
| Utils.SubclassCountsAsClass | src/utils/utils.ts:6 | The word inside an identifier counts: `class Cat extends subclass {}` has exactly two classes. |
| Text.SplitJoin | src/services/codeanalysis-service.ts:402-415 | Joining the pieces of a split with its separator gives the text back. |

## Left out

- Lengths are counted in code points, while JavaScript counts UTF-16 units, so texts outside the Basic Multilingual Plane have different lengths.
- Lower-casing maps only ASCII `A`–`Z`. JavaScript's `toLowerCase` maps all of Unicode, so other characters can differ even inside the Basic Multilingual Plane. For example U+212A KELVIN SIGN lower-cases to `k` in JavaScript but stays unchanged in the model.
- Metrics.DuplicatePercentage: the value is an exact rational. The service divides and multiplies binary floats, so its result can differ from the model's by rounding.
- Suggestions.Confidence: the service adds binary floats such as `0.7 + 0.05`. The model adds exact hundredths, so its values are the intended ones and not the rounded doubles.
- The maintainability index and Halstead volume (src/services/codeanalysis-service.ts:486-524) use logarithms and floating point, so they are not modelled. The `ComplexityMetrics` record omits them.
- The network request and its options, the prompt template (126-148), `analyzeCode` with its timestamp (57-73), the controllers and the logging are I/O and are not modelled. In `AiSuggestions` the request's outcome is a parameter, with `None` standing for a thrown error.
- The `catch` in `calculateComplexity` that returns an all-zero record is not modelled. None of the modelled steps can throw.
- Parse.LineNumbers: `parseInt` is applied only to digit runs, so its sign, hexadecimal and `NaN` paths never arise. Numbers above 2^53 lose precision in JavaScript; the model keeps them exact.
- The low severity keyword list (src/services/codeanalysis-service.ts:50) is never read by the source, so it is not modelled.
- Truncated code only feeds the prompt, which is not modelled, so `AiSuggestions` uses `TruncateCodeIfNeeded` nowhere.
- Metrics.CyclomaticComplexity: only a lower bound is stated. The exact value is the sum of the keyword counts, given by the function's body.
- Utils.CyclomaticComplexity: only a lower bound is stated, for the same reason.
- Utils.Analyze: its cyclomatic complexity is pinned to `Utils.CyclomaticComplexity`, so it carries only that lower bound. The block-comment count is characterised only by when it is positive.

## Notes on the behaviour as written

- The line-number list is read wherever `line` occurs, so `lineNumbers` can contain 0 or numbers past the end of the code.
- The function pattern `\w+\s*\([^)]*\)\s*{` also matches control headers such as `if (x) {`, which inflates both the function count and the cyclomatic complexity (`Metrics.IfHeaderCountsAsFunction`).
- `\b&&\b`, `\b\|\|\b` and `\b\?\b` need word characters on both sides, so spaced operators are not counted (`Metrics.SpacedOperatorNotCounted`).
- The duplicate percentage is not clamped. Overlapping windows can push it above 100.
- A long-function match that spans lines is never found on one line, so `findLineNumber` reports it at line 1 (`Review.MultiLineTextIsLineOne`).
- The text is split in front of every marker, so an issue's `IMPROVEMENT:` and `CODE:` parts land in sections of their own. Those sections yield nothing, so parsed suggestions never carry an improvement or a code example (`Parse.ParseAiResponse`).
