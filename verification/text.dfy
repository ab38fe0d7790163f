/** Character classes and string helpers with the meaning the statement
    parser's Ruby regular expressions give them. A "space" is the single
    character ' ' (the regex atoms ` ` and `[^ ]`), a digit is an ASCII digit
    (`\d`), a word character is `[A-Za-z0-9_]` (`\w`). */
module Text {

  predicate IsDigit(c: char) { '0' <= c <= '9' }

  predicate IsUpper(c: char) { 'A' <= c <= 'Z' }

  predicate IsLower(c: char) { 'a' <= c <= 'z' }

  predicate IsWordChar(c: char) { IsDigit(c) || IsUpper(c) || IsLower(c) || c == '_' }

  predicate AllDigits(s: string) {
    forall k :: 0 <= k < |s| ==> IsDigit(s[k])
  }

  predicate NoSpace(s: string) {
    forall k :: 0 <= k < |s| ==> s[k] != ' '
  }

  function Spaces(n: nat): (r: string)
    ensures |r| == n
    ensures forall k :: 0 <= k < n ==> r[k] == ' '
  {
    seq(n, _ => ' ')
  }

  /** Number of spaces at the start of `s` (what a greedy ` *` consumes). */
  function LeadingSpaces(s: string): (n: nat)
    ensures n <= |s|
    ensures forall k :: 0 <= k < n ==> s[k] == ' '
    ensures n < |s| ==> s[n] != ' '
  {
    if |s| > 0 && s[0] == ' ' then 1 + LeadingSpaces(s[1..]) else 0
  }

  /** Number of spaces at the end of `s`. */
  function TrailingSpaces(s: string): (n: nat)
    ensures n <= |s|
    ensures forall k :: |s| - n <= k < |s| ==> s[k] == ' '
    ensures n < |s| ==> s[|s| - n - 1] != ' '
  {
    if |s| > 0 && s[|s| - 1] == ' ' then 1 + TrailingSpaces(s[..|s| - 1]) else 0
  }

  /** Number of digits at the start of `s` (what a greedy `\d+` consumes). */
  function DigitRun(s: string): (n: nat)
    ensures n <= |s|
    ensures forall k :: 0 <= k < n ==> IsDigit(s[k])
    ensures n < |s| ==> !IsDigit(s[n])
  {
    if |s| > 0 && IsDigit(s[0]) then 1 + DigitRun(s[1..]) else 0
  }

  /** Length of the space-free word at the end of `s`. */
  function LastWordLength(s: string): (n: nat)
    ensures n <= |s|
    ensures forall k :: |s| - n <= k < |s| ==> s[k] != ' '
    ensures n < |s| ==> s[|s| - n - 1] == ' '
  {
    if |s| > 0 && s[|s| - 1] != ' ' then 1 + LastWordLength(s[..|s| - 1]) else 0
  }

  lemma AllSpaces(x: string)
    requires forall k :: 0 <= k < |x| ==> x[k] == ' '
    ensures x == Spaces(|x|)
  {
  }

  /** Number of spaces in `s` from position `i` on. */
  function SpacesFrom(s: string, i: nat): (n: nat)
    requires i <= |s|
    ensures i + n <= |s|
    ensures forall k :: i <= k < i + n ==> s[k] == ' '
    ensures i + n < |s| ==> s[i + n] != ' '
    decreases |s| - i
  {
    if i < |s| && s[i] == ' ' then 1 + SpacesFrom(s, i + 1) else 0
  }

  /** Number of digits in `s` from position `i` on. */
  function DigitsFrom(s: string, i: nat): (n: nat)
    requires i <= |s|
    ensures i + n <= |s|
    ensures forall k :: i <= k < i + n ==> IsDigit(s[k])
    ensures i + n < |s| ==> !IsDigit(s[i + n])
    decreases |s| - i
  {
    if i < |s| && IsDigit(s[i]) then 1 + DigitsFrom(s, i + 1) else 0
  }

  /** Number of spaces in `s` just before position `j`. */
  function SpacesBefore(s: string, j: nat): (n: nat)
    requires j <= |s|
    ensures n <= j
    ensures forall k :: j - n <= k < j ==> s[k] == ' '
    ensures n < j ==> s[j - n - 1] != ' '
  {
    if j > 0 && s[j - 1] == ' ' then 1 + SpacesBefore(s, j - 1) else 0
  }

  /** Length of the space-free word of `s` that ends just before position `j`. */
  function WordBefore(s: string, j: nat): (n: nat)
    requires j <= |s|
    ensures n <= j
    ensures forall k :: j - n <= k < j ==> s[k] != ' '
    ensures n < j ==> s[j - n - 1] == ' '
  {
    if j > 0 && s[j - 1] != ' ' then 1 + WordBefore(s, j - 1) else 0
  }

  lemma SpacesFromOf(s: string, i: nat, n: nat)
    requires i + n <= |s|
    requires forall k :: i <= k < i + n ==> s[k] == ' '
    requires i + n < |s| ==> s[i + n] != ' '
    ensures SpacesFrom(s, i) == n
  {
  }

  lemma DigitsFromOf(s: string, i: nat, n: nat)
    requires i + n <= |s|
    requires forall k :: i <= k < i + n ==> IsDigit(s[k])
    requires i + n < |s| ==> !IsDigit(s[i + n])
    ensures DigitsFrom(s, i) == n
  {
  }

  lemma SpacesBeforeOf(s: string, j: nat, n: nat)
    requires n <= j <= |s|
    requires forall k :: j - n <= k < j ==> s[k] == ' '
    requires n < j ==> s[j - n - 1] != ' '
    ensures SpacesBefore(s, j) == n
  {
  }

  lemma WordBeforeOf(s: string, j: nat, n: nat)
    requires n <= j <= |s|
    requires forall k :: j - n <= k < j ==> s[k] != ' '
    requires n < j ==> s[j - n - 1] == ' '
    ensures WordBefore(s, j) == n
  {
  }

  lemma SliceCat(s: string, i: nat, j: nat, k: nat)
    requires i <= j <= k <= |s|
    ensures s[i..k] == s[i..j] + s[j..k]
  {
  }

  lemma SliceCatEnd(s: string, i: nat, j: nat)
    requires i <= j <= |s|
    ensures s[i..] == s[i..j] + s[j..]
  {
  }

  lemma SliceOfSlice(s: string, i: nat, j: nat, k: nat, l: nat)
    requires i <= j <= |s| && k <= l <= j - i
    ensures s[i..j][k..l] == s[i + k..i + l]
  {
    assert forall m :: 0 <= m < l - k ==> s[i..j][k..l][m] == s[i + k + m];
  }

  lemma CatParts(x: string, y: string)
    ensures (x + y)[..|x|] == x && (x + y)[|x|..] == y
  {
  }

  lemma SliceSpaces(s: string, i: nat, j: nat)
    requires i <= j <= |s|
    requires forall k :: i <= k < j ==> s[k] == ' '
    ensures s[i..j] == Spaces(j - i)
  {
    AllSpaces(s[i..j]);
  }

  /** `s` without its leading and trailing spaces. Ruby's `strip` also removes
      tabs and other white space; the parser applies it only to a string made
      of spaces around an amount token, where the two agree. */
  function TrimSpaces(s: string): (r: string)
    ensures TrimmedAs(s, r)
  {
    var a := LeadingSpaces(s);
    var b := TrailingSpaces(s[a..]);
    TrimLayout(s, a, b);
    s[a..|s| - b]
  }

  /** `s` cut into its leading spaces, the middle and its trailing spaces. */
  lemma TrimLayout(s: string, a: nat, b: nat)
    requires a == LeadingSpaces(s) && b == TrailingSpaces(s[a..])
    ensures a + b <= |s|
    ensures TrimmedAs(s, s[a..|s| - b])
  {
    TrailingRun(s, a, b);
    TrimEnds(s, a, b);
    TrimParts(s, a, b);
    TrimGlue(s, a, b, s[a..|s| - b]);
  }

  lemma TrimGlue(s: string, a: nat, b: nat, r: string)
    requires a == LeadingSpaces(s) && a + b <= |s| && |r| == |s| - b - a
    requires r == [] || (r[0] != ' ' && r[|s| - b - a - 1] != ' ')
    requires s == Spaces(a) + r + Spaces(b)
    ensures TrimmedAs(s, r)
  {
  }

  /** `r` is `s` without its leading and trailing spaces. */
  predicate TrimmedAs(s: string, r: string) {
    && (r == [] || (r[0] != ' ' && r[|r| - 1] != ' '))
    && LeadingSpaces(s) + |r| <= |s|
    && s == Spaces(LeadingSpaces(s)) + r + Spaces(|s| - LeadingSpaces(s) - |r|)
  }

  lemma TrimEnds(s: string, a: nat, b: nat)
    requires a + b <= |s|
    requires a < |s| ==> s[a] != ' '
    requires a + b < |s| ==> s[|s| - b - 1] != ' '
    ensures s[a..|s| - b] == [] || (s[a..|s| - b][0] != ' ' && s[a..|s| - b][|s| - b - a - 1] != ' ')
  {
  }

  lemma TrimParts(s: string, a: nat, b: nat)
    requires a + b <= |s|
    requires forall k :: 0 <= k < a ==> s[k] == ' '
    requires forall k :: |s| - b <= k < |s| ==> s[k] == ' '
    ensures s == Spaces(a) + s[a..|s| - b] + Spaces(b)
  {
    SliceSpaces(s, 0, a);
    SliceSpaces(s, |s| - b, |s|);
    SliceCat(s, 0, a, |s| - b);
    SliceCat(s, 0, |s| - b, |s|);
    assert s[0..|s|] == s;
  }

  lemma TrailingRun(s: string, a: nat, b: nat)
    requires a <= |s| && b == TrailingSpaces(s[a..])
    ensures a + b <= |s|
    ensures forall k :: |s| - b <= k < |s| ==> s[k] == ' '
    ensures a + b < |s| ==> s[|s| - b - 1] != ' '
  {
    var t := s[a..];
    assert forall k :: a <= k < |s| ==> s[k] == t[k - a];
  }

  lemma LeadingSpacesOf(a: nat, x: string)
    requires x == [] || x[0] != ' '
    ensures LeadingSpaces(Spaces(a) + x) == a
  {
    var s := Spaces(a) + x;
    assert forall k :: 0 <= k < a ==> s[k] == ' ';
    assert a < |s| ==> s[a] == x[0];
  }

  lemma TrailingSpacesOf(x: string, b: nat)
    requires x == [] || x[|x| - 1] != ' '
    ensures TrailingSpaces(x + Spaces(b)) == b
  {
    var s := x + Spaces(b);
    assert forall k :: |s| - b <= k < |s| ==> s[k] == ' ';
    assert b < |s| ==> s[|s| - b - 1] == x[|x| - 1];
  }

  lemma DigitRunOf(x: string, y: string)
    requires AllDigits(x)
    requires y == [] || !IsDigit(y[0])
    ensures DigitRun(x + y) == |x|
  {
    var s := x + y;
    assert forall k :: 0 <= k < |x| ==> s[k] == x[k];
    assert |x| < |s| ==> s[|x|] == y[0];
  }

  lemma LastWordLengthOf(x: string, w: string)
    requires NoSpace(w)
    requires x == [] || x[|x| - 1] == ' '
    ensures LastWordLength(x + w) == |w|
  {
    var s := x + w;
    assert forall k :: |x| <= k < |s| ==> s[k] == w[k - |x|];
    assert |w| < |s| ==> s[|s| - |w| - 1] == x[|x| - 1];
  }

  /** Trimming the spaces around a word that neither starts nor ends with a
      space gives back the word. */
  lemma TrimSpacesOf(a: nat, t: string, b: nat)
    requires t != [] && t[0] != ' ' && t[|t| - 1] != ' '
    ensures TrimSpaces(Spaces(a) + t + Spaces(b)) == t
  {
    var s := Spaces(a) + t + Spaces(b);
    assert s == Spaces(a) + (t + Spaces(b));
    LeadingSpacesOf(a, t + Spaces(b));
    assert s[a..] == t + Spaces(b);
    TrailingSpacesOf(t, b);
  }

  /** `to_i` of a string of decimal digits. */
  function DigitsValue(s: string): nat
    requires AllDigits(s)
  {
    if |s| == 0 then 0 else 10 * DigitsValue(s[..|s| - 1]) + (s[|s| - 1] as int - '0' as int)
  }

  function Digit(d: nat): (c: char)
    requires d < 10
    ensures IsDigit(c) && c as int - '0' as int == d
  {
    ('0' as int + d) as char
  }

  function Pow10(n: nat): (r: nat)
    ensures r >= 1
  {
    if n == 0 then 1 else 10 * Pow10(n - 1)
  }

  /** The decimal numeral of `n` without leading zeros (`to_s`). */
  function NatToDigits(n: nat): (r: string)
    ensures |r| >= 1 && AllDigits(r)
    ensures DigitsValue(r) == n
  {
    if n < 10 then [Digit(n)]
    else
      var r := NatToDigits(n / 10) + [Digit(n % 10)];
      assert r[..|r| - 1] == NatToDigits(n / 10);
      r
  }

  /** `n` written with exactly `w` decimal digits, zero-padded (`'%0wd'`). */
  function PadDigits(n: nat, w: nat): (r: string)
    requires n < Pow10(w)
    ensures |r| == w && AllDigits(r)
    ensures DigitsValue(r) == n
  {
    if w == 0 then []
    else
      var r := PadDigits(n / 10, w - 1) + [Digit(n % 10)];
      assert r[..|r| - 1] == PadDigits(n / 10, w - 1);
      r
  }

  /** ASCII `upcase`. */
  function UpcaseChar(c: char): char {
    if IsLower(c) then (c as int - 32) as char else c
  }

  function Upcase(s: string): (r: string)
    ensures |r| == |s|
    ensures forall k :: 0 <= k < |s| ==> r[k] == UpcaseChar(s[k])
  {
    seq(|s|, k requires 0 <= k < |s| => UpcaseChar(s[k]))
  }

  /** Keeps the characters of `s` that are digits or '.': Ruby's
      `gsub(/[^\d.]/, '')`. */
  function KeepNumeric(s: string): (r: string)
    ensures |r| <= |s|
    ensures forall k :: 0 <= k < |r| ==> IsDigit(r[k]) || r[k] == '.'
  {
    if |s| == 0 then []
    else if IsDigit(s[0]) || s[0] == '.' then [s[0]] + KeepNumeric(s[1..])
    else KeepNumeric(s[1..])
  }

  lemma {:induction false} KeepNumericAppend(x: string, y: string)
    ensures KeepNumeric(x + y) == KeepNumeric(x) + KeepNumeric(y)
  {
    if |x| == 0 {
      assert x + y == y;
    } else {
      assert (x + y)[1..] == x[1..] + y;
      KeepNumericAppend(x[1..], y);
    }
  }

  /** Removes the thousands separators ',' from `s`. */
  function RemoveCommas(s: string): (r: string)
    ensures |r| <= |s|
    ensures forall k :: 0 <= k < |r| ==> r[k] != ','
  {
    if |s| == 0 then []
    else if s[0] == ',' then RemoveCommas(s[1..])
    else [s[0]] + RemoveCommas(s[1..])
  }

  lemma {:induction false} KeepNumericOfDigits(s: string)
    requires AllDigits(s)
    ensures KeepNumeric(s) == s
  {
    if |s| > 0 {
      KeepNumericOfDigits(s[1..]);
    }
  }

  lemma {:induction false} RemoveCommasOfDigits(s: string)
    requires AllDigits(s)
    ensures RemoveCommas(s) == s
  {
    if |s| > 0 {
      RemoveCommasOfDigits(s[1..]);
    }
  }
}
