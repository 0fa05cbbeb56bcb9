/**
 * The JavaScript string operations the application relies on, over strings
 * as sequences of characters: `trim`, `split`, `join`, `includes`,
 * `startsWith`, index search, and number-to-text conversion.
 */
module Text {
  import opened Wrappers

  /** The characters that `String.prototype.trim` removes and that the
      regular-expression class `\s` matches: white space and line terminators. */
  predicate IsSpace(c: char) {
    || c == ' ' || c == '\t' || c == '\n' || c == '\r'
    || c == '\U{000B}' || c == '\U{000C}' || c == '\U{00A0}' || c == '\U{1680}'
    || ('\U{2000}' <= c <= '\U{200A}')
    || c == '\U{2028}' || c == '\U{2029}' || c == '\U{202F}' || c == '\U{205F}'
    || c == '\U{3000}' || c == '\U{FEFF}'
  }

  /** The regular-expression class `\d`: the ASCII digits only. */
  predicate IsDigit(c: char) {
    '0' <= c <= '9'
  }

  /** Every character is white space (the empty string included). */
  predicate Blank(s: string) {
    forall i :: 0 <= i < |s| ==> IsSpace(s[i])
  }

  /** Neither end of `s` is white space. */
  predicate Trimmed(s: string) {
    s == [] || (!IsSpace(s[0]) && !IsSpace(s[|s| - 1]))
  }

  /** The number of white-space characters `s` starts with. */
  function LeadingSpaces(s: string): (k: nat)
    ensures k <= |s|
    ensures forall i :: 0 <= i < k ==> IsSpace(s[i])
    ensures k < |s| ==> !IsSpace(s[k])
  {
    if s != [] && IsSpace(s[0]) then
      var k := LeadingSpaces(s[1..]);
      assert forall i :: 1 <= i < k + 1 ==> s[i] == s[1..][i - 1];
      k + 1
    else 0
  }

  /** The number of white-space characters `s` ends with. */
  function TrailingSpaces(s: string): (k: nat)
    ensures k <= |s|
    ensures forall i :: |s| - k <= i < |s| ==> IsSpace(s[i])
    ensures k < |s| ==> !IsSpace(s[|s| - k - 1])
  {
    if s != [] && IsSpace(s[|s| - 1]) then
      var k := TrailingSpaces(s[..|s| - 1]);
      assert forall i :: |s| - k - 1 <= i < |s| - 1 ==> s[i] == s[..|s| - 1][i];
      k + 1
    else 0
  }

  /** `s` with its leading white space removed (also the regex `^\s*`). */
  function TrimStart(s: string): (r: string)
    ensures |r| <= |s| && r == s[|s| - |r|..]
    ensures forall i :: 0 <= i < |s| - |r| ==> IsSpace(s[i])
    ensures r != [] ==> !IsSpace(r[0])
  {
    s[LeadingSpaces(s)..]
  }

  /** `s` with its trailing white space removed. */
  function TrimEnd(s: string): (r: string)
    ensures |r| <= |s| && r == s[..|r|]
    ensures forall i :: |r| <= i < |s| ==> IsSpace(s[i])
    ensures r != [] ==> !IsSpace(r[|r| - 1])
  {
    s[..|s| - TrailingSpaces(s)]
  }

  /** `String.prototype.trim`: white space removed from both ends. */
  function Trim(s: string): (r: string)
    ensures Trimmed(r)
    ensures |r| <= |s|
  {
    TrimEnd(TrimStart(s))
  }

  /** Trimming leaves nothing exactly when the text is blank. */
  lemma TrimEmptyIffBlank(s: string)
    ensures Trim(s) == [] <==> Blank(s)
  {
    var t := TrimStart(s);
    if t != [] {
      assert !IsSpace(s[|s| - |t|]);
    }
  }

  /** Trimming what is already trimmed changes nothing. */
  lemma TrimOfTrimmed(s: string)
    requires Trimmed(s)
    ensures Trim(s) == s
  {
  }

  /** Trimming is idempotent. */
  lemma TrimIdempotent(s: string)
    ensures Trim(Trim(s)) == Trim(s)
  {
    TrimOfTrimmed(Trim(s));
  }

  /** Appending a character to text that is not blank extends its
      left-trimmed form by that character. */
  lemma TrimStartAppend(s: string, c: char)
    ensures Blank(s) ==> TrimStart(s + [c]) == TrimStart([c])
    ensures !Blank(s) ==> TrimStart(s + [c]) == TrimStart(s) + [c]
  {
    var x := s + [c];
    var k, j := LeadingSpaces(x), LeadingSpaces(s);
    if Blank(s) {
      assert k >= |s|;
      assert x[|s|..] == [c];
      assert x[k..] == [c][k - |s|..];
    } else {
      assert j < |s|;
      assert x[j] == s[j];
      assert k <= j;
      assert k == j;
      assert x[j..] == s[j..] + [c];
    }
  }

  /** White space before a text that does not start with white space is
      exactly what left-trimming removes. */
  lemma TrimStartBlankPrefix(spaces: string, s: string)
    requires Blank(spaces) && (s == [] || !IsSpace(s[0]))
    ensures TrimStart(spaces + s) == s
  {
    var x := spaces + s;
    var k := LeadingSpaces(x);
    assert forall i :: 0 <= i < |spaces| ==> x[i] == spaces[i];
    assert |spaces| < |x| ==> x[|spaces|] == s[0];
    assert k == |spaces|;
    assert x[k..] == s;
  }

  /** A text that starts with white space is blank exactly when its tail is. */
  lemma BlankTail(s: string)
    requires s != [] && IsSpace(s[0])
    ensures Blank(s) <==> Blank(s[1..])
  {
    assert forall i :: 1 <= i < |s| ==> s[i] == s[1..][i - 1];
  }

  /** Appending white space does not change the trimmed text. */
  lemma TrimEndSpace(s: string, c: char)
    requires IsSpace(c)
    ensures Trim(s + [c]) == Trim(s)
  {
    TrimStartAppend(s, c);
    if Blank(s) {
      assert TrimStart([c]) == TrimStart([c][1..]) == [];
      assert TrimStart(s) == [];
    } else {
      TrimEndAppendSpace(TrimStart(s), c);
    }
  }

  /** White space appended to a text is removed again by right-trimming. */
  lemma TrimEndAppendSpace(t: string, c: char)
    requires IsSpace(c)
    ensures TrimEnd(t + [c]) == TrimEnd(t)
  {
    var x := t + [c];
    assert x[..|x| - 1] == t;
    assert TrailingSpaces(x) == TrailingSpaces(t) + 1;
    assert x[..|t| - TrailingSpaces(t)] == t[..|t| - TrailingSpaces(t)];
  }

  /** Trimming cannot introduce a character. */
  lemma TrimKeepsOut(s: string, c: char)
    requires c !in s
    ensures c !in Trim(s)
  {
    var t := TrimStart(s);
    assert forall i :: 0 <= i < |t| ==> t[i] == s[|s| - |t| + i];
    var u := TrimEnd(t);
    assert forall i :: 0 <= i < |u| ==> u[i] == t[i];
  }

  /** Index of the first occurrence of `c` in `s`. */
  function FirstIndex(s: string, c: char): (r: Option<nat>)
    ensures r.None? <==> c !in s
    ensures r.Some? ==> r.value < |s| && s[r.value] == c && c !in s[..r.value]
  {
    if s == [] then None
    else if s[0] == c then Some(0)
    else
      match FirstIndex(s[1..], c)
      case None => None
      case Some(i) =>
        assert s[..i + 1] == [s[0]] + s[1..][..i];
        Some(i + 1)
  }

  /** Index of the last occurrence of `c` in `s`. */
  function LastIndex(s: string, c: char): (r: Option<nat>)
    ensures r.None? <==> c !in s
    ensures r.Some? ==> r.value < |s| && s[r.value] == c && c !in s[r.value + 1..]
  {
    if s == [] then None
    else if s[|s| - 1] == c then
      Some(|s| - 1)
    else
      assert s == s[..|s| - 1] + [s[|s| - 1]];
      match LastIndex(s[..|s| - 1], c)
      case None => None
      case Some(i) =>
        assert s[i + 1..] == s[..|s| - 1][i + 1..] + [s[|s| - 1]];
        Some(i)
  }

  /** `String.prototype.split` with a one-character separator. */
  function Split(s: string, sep: char): (parts: seq<string>)
    ensures |parts| >= 1
    ensures forall i :: 0 <= i < |parts| ==> sep !in parts[i]
    decreases |s|
  {
    match FirstIndex(s, sep)
    case None => [s]
    case Some(i) => [s[..i]] + Split(s[i + 1..], sep)
  }

  /** `Array.prototype.join`: the parts with `sep` between neighbours. */
  function Join(parts: seq<string>, sep: string): string {
    if |parts| == 0 then ""
    else if |parts| == 1 then parts[0]
    else parts[0] + sep + Join(parts[1..], sep)
  }

  /** Splitting and joining back with the same separator restores the text. */
  lemma {:induction false} JoinSplit(s: string, sep: char)
    ensures Join(Split(s, sep), [sep]) == s
    decreases |s|
  {
    match FirstIndex(s, sep)
    case None =>
    case Some(i) =>
      var ps := Split(s[i + 1..], sep);
      JoinSplit(s[i + 1..], sep);
      assert Split(s, sep) == [s[..i]] + ps;
      assert ([s[..i]] + ps)[1..] == ps;
      assert Join([s[..i]] + ps, [sep]) == s[..i] + [sep] + Join(ps, [sep]);
      assert s == s[..i] + [sep] + s[i + 1..];
  }

  /** Joining parts free of the separator and splitting again restores the parts. */
  lemma {:induction false} SplitJoin(parts: seq<string>, sep: char)
    requires |parts| >= 1
    requires forall i :: 0 <= i < |parts| ==> sep !in parts[i]
    ensures Split(Join(parts, [sep]), sep) == parts
  {
    if |parts| > 1 {
      var rest := Join(parts[1..], [sep]);
      var s := parts[0] + [sep] + rest;
      SplitJoin(parts[1..], sep);
      assert s[..|parts[0]|] == parts[0];
      assert s[|parts[0]|] == sep;
      assert s[|parts[0]| + 1..] == rest;
      assert FirstIndex(s, sep) == Some(|parts[0]|);
    }
  }

  /** `s.includes(sub)`. */
  predicate Contains(s: string, sub: string) {
    sub <= s || (s != [] && Contains(s[1..], sub))
  }

  /** A string that lacks the first character of `sub` cannot contain `sub`. */
  lemma {:induction false} NotContainsWithoutFirst(s: string, sub: string)
    requires sub != [] && sub[0] !in s
    ensures !Contains(s, sub)
  {
    if s != [] {
      NotContainsWithoutFirst(s[1..], sub);
    }
  }

  /** A string that lacks some character of `sub` cannot contain `sub`. */
  lemma {:induction false} NotContainsWithout(s: string, sub: string, i: nat)
    requires i < |sub| && sub[i] !in s
    ensures !Contains(s, sub)
  {
    if s != [] {
      assert i < |s| ==> s[i] in s;
      NotContainsWithout(s[1..], sub, i);
    }
  }

  /** A text in which the first two characters of `sub` never stand side by
      side cannot contain `sub`. */
  lemma {:induction false} NotContainsWithoutPair(s: string, sub: string)
    requires |sub| >= 2
    requires forall i :: 0 <= i < |s| - 1 ==> s[i] != sub[0] || s[i + 1] != sub[1]
    ensures !Contains(s, sub)
  {
    if s != [] {
      if |s| >= 2 {
        assert s[0] != sub[0] || s[1] != sub[1];
      }
      var t := s[1..];
      assert forall i :: 0 <= i < |t| ==> t[i] == s[i + 1];
      NotContainsWithoutPair(t, sub);
    }
  }

  /** A text too short to hold `sub` does not contain it. */
  lemma {:induction false} ContainsNeedsLength(s: string, sub: string)
    requires Contains(s, sub)
    ensures |sub| <= |s|
  {
    if !(sub <= s) {
      ContainsNeedsLength(s[1..], sub);
    }
  }

  /** Text that contains `sub` contains every prefix of `sub`. */
  lemma {:induction false} ContainsPrefix(s: string, sub: string, k: nat)
    requires Contains(s, sub) && k <= |sub|
    ensures Contains(s, sub[..k])
  {
    if sub <= s {
      assert sub[..k] <= s;
    } else {
      ContainsPrefix(s[1..], sub, k);
    }
  }

  /** Prepending text free of the first character of `sub` cannot create an occurrence of `sub`. */
  lemma {:induction false} NotContainsAfter(a: string, b: string, sub: string)
    requires sub != [] && sub[0] !in a && !Contains(b, sub)
    ensures !Contains(a + b, sub)
  {
    if a == [] {
      assert a + b == b;
    } else {
      assert (a + b)[0] == a[0];
      assert (a + b)[1..] == a[1..] + b;
      NotContainsAfter(a[1..], b, sub);
    }
  }

  /** A text contains whatever is embedded in it. */
  lemma {:induction false} ContainsEmbedded(a: string, sub: string, b: string)
    ensures Contains(a + sub + b, sub)
  {
    if a != [] {
      assert (a + sub + b)[1..] == a[1..] + sub + b;
      ContainsEmbedded(a[1..], sub, b);
    } else {
      assert a + sub + b == sub + b;
    }
  }

  /** Text that contains `sub` still contains it once more text follows. */
  lemma {:induction false} ContainsExtended(s: string, sub: string, t: string)
    requires Contains(s, sub)
    ensures Contains(s + t, sub)
  {
    if !(sub <= s) {
      assert (s + t)[1..] == s[1..] + t;
      ContainsExtended(s[1..], sub, t);
    }
  }

  /** Text that contains `sub` still contains it once more text precedes. */
  lemma {:induction false} ContainsPrepended(a: string, s: string, sub: string)
    requires Contains(s, sub)
    ensures Contains(a + s, sub)
  {
    if a == [] {
      assert a + s == s;
    } else {
      assert (a + s)[1..] == a[1..] + s;
      ContainsPrepended(a[1..], s, sub);
    }
  }

  /** Every part occurs in the joined text. */
  lemma {:induction false} JoinContainsPart(parts: seq<string>, sep: string, i: nat)
    requires i < |parts|
    ensures Contains(Join(parts, sep), parts[i])
  {
    if |parts| == 1 {
      ContainsEmbedded([], parts[0], []);
      assert [] + parts[0] + [] == parts[0];
    } else if i == 0 {
      ContainsEmbedded([], parts[0], sep + Join(parts[1..], sep));
      assert [] + parts[0] + (sep + Join(parts[1..], sep)) == Join(parts, sep);
    } else {
      JoinContainsPart(parts[1..], sep, i - 1);
      ContainsPrepended(parts[0] + sep, Join(parts[1..], sep), parts[i]);
    }
  }

  /** ASCII lower-casing, as case-insensitive regular expressions compare letters. */
  function LowerAscii(c: char): char {
    if 'A' <= c <= 'Z' then (c as int + 32) as char else c
  }

  /** `s` starts with the lower-case ASCII text `p`, ignoring ASCII case. */
  predicate StartsWithIgnoringCase(s: string, p: string) {
    |p| <= |s| && forall i :: 0 <= i < |p| ==> LowerAscii(s[i]) == p[i]
  }

  /** Number of leading ASCII digits of `s`. */
  function LeadingDigits(s: string): (k: nat)
    ensures k <= |s|
    ensures forall i :: 0 <= i < k ==> IsDigit(s[i])
    ensures k < |s| ==> !IsDigit(s[k])
  {
    if s != [] && IsDigit(s[0]) then
      var k := LeadingDigits(s[1..]);
      assert forall i :: 1 <= i < k + 1 ==> s[i] == s[1..][i - 1];
      k + 1
    else 0
  }

  /** The digits in front of a non-digit are the leading digits. */
  lemma {:induction false} LeadingDigitsBefore(digits: string, s: string)
    requires forall i :: 0 <= i < |digits| ==> IsDigit(digits[i])
    requires s != [] && !IsDigit(s[0])
    ensures LeadingDigits(digits + s) == |digits|
  {
    if digits == [] {
      assert digits + s == s;
    } else {
      assert (digits + s)[1..] == digits[1..] + s;
      LeadingDigitsBefore(digits[1..], s);
    }
  }

  /** The decimal digit for `d`. */
  function DigitChar(d: nat): char
    requires d < 10
  {
    ('0' as int + d) as char
  }

  /** The decimal text of a natural number, as JavaScript prints it. */
  function Decimal(n: nat): (r: string)
    ensures |r| >= 1
    ensures forall i :: 0 <= i < |r| ==> IsDigit(r[i])
    ensures r[0] == '0' ==> n == 0
  {
    if n < 10 then [DigitChar(n)] else Decimal(n / 10) + [DigitChar(n % 10)]
  }

  /** The decimal text of an integer, with a leading '-' when negative. */
  function IntText(n: int): string {
    if n < 0 then "-" + Decimal(-n) else Decimal(n)
  }

  /** The value a decimal digit string denotes. */
  function DigitsValue(s: string): nat
    requires forall i :: 0 <= i < |s| ==> IsDigit(s[i])
  {
    if s == [] then 0
    else
      assert IsDigit(s[|s| - 1]);
      DigitsValue(s[..|s| - 1]) * 10 + (s[|s| - 1] as int - '0' as int)
  }

  /** Reading back the decimal text of `n` yields `n`. */
  lemma {:induction false} DecimalRoundTrip(n: nat)
    ensures DigitsValue(Decimal(n)) == n
  {
    if n >= 10 {
      DecimalRoundTrip(n / 10);
      var s := Decimal(n / 10) + [DigitChar(n % 10)];
      assert s[..|s| - 1] == Decimal(n / 10);
    }
  }
}
