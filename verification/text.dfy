/** Strings as the analyzer's TypeScript sees them: ECMAScript character
    classes, ASCII lower-casing, substring search, `split`/`join` on a
    one-character separator, and `trim()`. */
module Text {

  datatype Option<T> = None | Some(value: T)

  /** The regular-expression class `\s`, which is also exactly what `trim()`
      removes: ECMAScript WhiteSpace (every Zs character included) and
      LineTerminator. */
  predicate IsSpace(c: char) {
    var n := c as int;
    || (0x09 <= n <= 0x0D)     // tab, line feed, vertical tab, form feed, carriage return
    || n == 0x20 || n == 0xA0 || n == 0x1680
    || (0x2000 <= n <= 0x200A)
    || n == 0x2028 || n == 0x2029 || n == 0x202F || n == 0x205F || n == 0x3000 || n == 0xFEFF
  }

  /** `\d` */
  predicate IsDigit(c: char) {
    '0' <= c <= '9'
  }

  /** `\w`: ASCII letters, digits and the underscore. */
  predicate IsWordChar(c: char) {
    ('a' <= c <= 'z') || ('A' <= c <= 'Z') || IsDigit(c) || c == '_'
  }

  /** The character classes the analyzer's regular expressions repeat. */
  datatype CharClass =
    | Space          // \s
    | WordChar       // \w
    | Digit          // \d
    | NotCloseParen  // [^)]
    | Separator      // [-,\s]

  predicate InClass(c: char, cls: CharClass) {
    match cls
    case Space => IsSpace(c)
    case WordChar => IsWordChar(c)
    case Digit => IsDigit(c)
    case NotCloseParen => c != ')'
    case Separator => c == '-' || c == ',' || IsSpace(c)
  }

  /** End of the maximal run of `cls` characters that starts at `i`: what a
      greedy `cls*` consumes from `i`. */
  function SkipClass(s: string, i: nat, cls: CharClass): (j: nat)
    requires i <= |s|
    ensures i <= j <= |s|
    ensures forall m :: i <= m < j ==> InClass(s[m], cls)
    ensures j == |s| || !InClass(s[j], cls)
    decreases |s| - i
  {
    if i == |s| || !InClass(s[i], cls) then i else SkipClass(s, i + 1, cls)
  }

  /** `toLowerCase()` restricted to ASCII. */
  function LowerChar(c: char): char {
    if 'A' <= c <= 'Z' then (c as int + 32) as char else c
  }

  function Lower(s: string): (r: string)
    ensures |r| == |s|
    ensures forall i :: 0 <= i < |s| ==> r[i] == LowerChar(s[i])
  {
    seq(|s|, i requires 0 <= i < |s| => LowerChar(s[i]))
  }

  /** `k` occurs in `s` starting at index `i`. */
  predicate StartsAt(s: string, i: nat, k: string) {
    i + |k| <= |s| && s[i..i + |k|] == k
  }

  /** Leftmost occurrence of `k` in `s` at or after `i` (`indexOf(k, i)`). */
  function FindFrom(s: string, k: string, i: nat): (r: Option<nat>)
    requires i <= |s|
    ensures r.Some? ==> i <= r.value <= |s| && StartsAt(s, r.value, k)
    ensures r.Some? ==> forall m :: i <= m < r.value ==> !StartsAt(s, m, k)
    ensures r.None? ==> forall m :: i <= m ==> !StartsAt(s, m, k)
    decreases |s| - i
  {
    if StartsAt(s, i, k) then Some(i)
    else if i == |s| then None
    else FindFrom(s, k, i + 1)
  }

  /** `s.includes(k)` */
  predicate Contains(s: string, k: string)
  {
    FindFrom(s, k, 0).Some?
  }

  /** `includes` means what it says: some position of `s` starts a copy of `k`. */
  lemma ContainsMeansOccurs(s: string, k: string)
    ensures Contains(s, k) <==> exists m :: StartsAt(s, m, k)
  {
    if exists m :: StartsAt(s, m, k) {
      var m :| StartsAt(s, m, k);
      assert FindFrom(s, k, 0).Some?;
    }
  }

  /** An occurrence inside a slice is an occurrence in the whole string. */
  lemma StartsAtSlice(s: string, a: nat, b: nat, m: nat, k: string)
    requires a <= b <= |s|
    requires StartsAt(s[a..b], m, k)
    ensures StartsAt(s, a + m, k)
  {
    forall t | 0 <= t < |k|
      ensures s[a + m + t] == k[t]
    {
      assert s[a..b][m..m + |k|][t] == k[t];
    }
  }

  /** First index of `c` in `s`. */
  function IndexOf(s: string, c: char): (j: nat)
    requires c in s
    ensures j < |s| && s[j] == c && c !in s[..j]
  {
    if s[0] == c then 0
    else
      assert c in s[1..] by { var m :| 0 <= m < |s| && s[m] == c; assert s[1..][m - 1] == c; }
      var j := 1 + IndexOf(s[1..], c);
      assert s[..j] == [s[0]] + s[1..][..j - 1];
      j
  }

  /** `parts.join(sep)` */
  function Join(parts: seq<string>, sep: string): string {
    if |parts| == 0 then ""
    else if |parts| == 1 then parts[0]
    else parts[0] + sep + Join(parts[1..], sep)
  }

  /** `s.split(sep)` for a one-character separator: the text before the
      first separator, then the pieces of the rest. */
  function Split(s: string, sep: char): (parts: seq<string>)
    ensures |parts| >= 1
    decreases |s|
  {
    if sep !in s then [s]
    else
      var j := IndexOf(s, sep);
      [s[..j]] + Split(s[j + 1..], sep)
  }

  /** There is one more piece than there are separators. */
  lemma {:induction false} SplitCount(s: string, sep: char)
    ensures |Split(s, sep)| == multiset(s)[sep] + 1
    decreases |s|
  {
    if sep !in s {
      assert multiset(s)[sep] == 0;
    } else {
      var j := IndexOf(s, sep);
      SplitCount(s[j + 1..], sep);
      assert s == s[..j] + [sep] + s[j + 1..];
      assert multiset(s) == multiset(s[..j]) + multiset([sep]) + multiset(s[j + 1..]) by {
        calc {
          multiset(s);
          multiset(s[..j] + [sep] + s[j + 1..]);
          multiset(s[..j] + [sep]) + multiset(s[j + 1..]);
          multiset(s[..j]) + multiset([sep]) + multiset(s[j + 1..]);
        }
      }
      assert multiset(s[..j])[sep] == 0;
    }
  }

  /** No piece contains the separator. */
  lemma {:induction false} SplitPieces(s: string, sep: char)
    ensures forall k :: 0 <= k < |Split(s, sep)| ==> sep !in Split(s, sep)[k]
    decreases |s|
  {
    if sep in s {
      var j := IndexOf(s, sep);
      SplitPieces(s[j + 1..], sep);
      assert Split(s, sep)[1..] == Split(s[j + 1..], sep);
    }
  }

  /** Joining the pieces with the separator gives the text back. */
  lemma {:induction false} SplitJoin(s: string, sep: char)
    ensures Join(Split(s, sep), [sep]) == s
    decreases |s|
  {
    if sep in s {
      var j := IndexOf(s, sep);
      SplitJoin(s[j + 1..], sep);
      var rest := Split(s[j + 1..], sep);
      assert Split(s, sep)[1..] == rest;
      assert s == s[..j] + [sep] + s[j + 1..];
    }
  }

  /** `s.split("\n")` */
  function Lines(s: string): seq<string> {
    Split(s, '\n')
  }

  /** The boundaries `trim()` keeps: leading and trailing whitespace runs
      are outside `[a, b)`, and the kept text neither starts nor ends with
      whitespace. */
  function TrimBounds(s: string): (ab: (nat, nat))
    ensures ab.0 <= ab.1 <= |s|
    ensures forall m :: 0 <= m < ab.0 ==> IsSpace(s[m])
    ensures forall m :: ab.1 <= m < |s| ==> IsSpace(s[m])
    ensures ab.0 < ab.1 ==> !IsSpace(s[ab.0]) && !IsSpace(s[ab.1 - 1])
  {
    var a := SkipClass(s, 0, Space);
    if a == |s| then (a, a) else (a, TrimEnd(s, |s|))
  }

  /** Largest `b <= j` such that `s[b..j]` is all whitespace. */
  function TrimEnd(s: string, j: nat): (b: nat)
    requires j <= |s|
    ensures b <= j
    ensures forall m :: b <= m < j ==> IsSpace(s[m])
    ensures b == 0 || !IsSpace(s[b - 1])
    decreases j
  {
    if j == 0 || !IsSpace(s[j - 1]) then j else TrimEnd(s, j - 1)
  }

  /** `s.trim()` */
  function Trim(s: string): (r: string)
    ensures r == "" <==> forall m :: 0 <= m < |s| ==> IsSpace(s[m])
  {
    var ab := TrimBounds(s);
    s[ab.0..ab.1]
  }

  /** `s.split(/c+/)` for a character class `c`: the pieces between maximal
      runs of `cls` characters, including an empty piece before a leading
      run and after a trailing one; `""` gives `[""]`. */
  function SplitRuns(s: string, cls: CharClass): (pieces: seq<string>)
    ensures |pieces| >= 1
  {
    SplitRunsFrom(s, cls, 0, 0)
  }

  /** Pieces of `s[p..]`, the current piece having been scanned up to `q`. */
  function SplitRunsFrom(s: string, cls: CharClass, p: nat, q: nat): (pieces: seq<string>)
    requires p <= q <= |s|
    ensures |pieces| >= 1
    decreases |s| - q
  {
    if q == |s| then [s[p..]]
    else if InClass(s[q], cls) then
      var e := SkipClass(s, q, cls);
      [s[p..q]] + SplitRunsFrom(s, cls, e, e)
    else SplitRunsFrom(s, cls, p, q + 1)
  }

  /** Value of a string of decimal digits. */
  function DecimalValue(ds: string): nat
    decreases |ds|
  {
    if |ds| == 0 then 0
    else
      var d := ds[|ds| - 1];
      DecimalValue(ds[..|ds| - 1]) * 10 + (if IsDigit(d) then d as int - '0' as int else 0)
  }

  /** `parseInt(t)` on text whose digits, if any, start at its first
      character: the value of the leading digit run, or `None` for `NaN`. */
  function ParseDecimal(t: string): (r: Option<nat>)
    ensures r.Some? <==> |t| > 0 && IsDigit(t[0])
  {
    if |t| > 0 && IsDigit(t[0]) then Some(DecimalValue(t[..SkipClass(t, 0, Digit)])) else None
  }
}
