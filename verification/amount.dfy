/** Currency tokens: recognising `AMOUNT_REGEX` (lib/parse_capitalone_pdf_statement.rb:40),
    scanning a line for its matches, the amount-only test of `AMOUNT_ONLY_REGEX`
    (line 41), and `parse_amount` (lines 214-217) with amounts as integer cents. */
module Amount {
  import opened Results
  import opened Text

  predicate IsDigitOrComma(c: char) { IsDigit(c) || c == ',' }

  /** The middle of `AMOUNT_REGEX`, `\$[\d,]+\.\d\d`, matched against all of `m`. */
  predicate IsDollarFigure(m: string) {
    && |m| >= 5
    && m[0] == '$'
    && (forall k :: 1 <= k < |m| - 3 ==> IsDigitOrComma(m[k]))
    && m[|m| - 3] == '.'
    && IsDigit(m[|m| - 2])
    && IsDigit(m[|m| - 1])
  }

  function OpenLength(t: string): nat {
    if |t| > 0 && t[0] == '(' then 1 else 0
  }

  function CloseLength(t: string): nat {
    if |t| > OpenLength(t) && t[|t| - 1] == ')' then 1 else 0
  }

  /** `t` without its optional opening and closing parenthesis. */
  function Figure(t: string): string {
    t[OpenLength(t)..|t| - CloseLength(t)]
  }

  /** `t` as a whole is matched by `\(?\$[\d,]+\.\d\d\)?`: `$1,234.56`,
      `($1,234.56)`, and also the unbalanced `($1.00` and `$1.00)` that the
      optional parentheses admit. */
  predicate IsAmountToken(t: string) {
    IsDollarFigure(Figure(t))
  }

  lemma TokenShape(t: string)
    requires IsAmountToken(t)
    ensures |t| >= 5 && NoSpace(t)
    ensures t[0] == '(' || t[0] == '$'
    ensures IsDigit(t[|t| - 1]) || t[|t| - 1] == ')'
  {
    var m := Figure(t);
    var a := OpenLength(t);
    forall k | 0 <= k < |t|
      ensures t[k] != ' '
    {
      if a <= k < |t| - CloseLength(t) {
        assert t[k] == m[k - a];
      }
    }
  }

  /** Number of digits and commas at the start of `s` (a greedy `[\d,]+`). */
  function DigitCommaRun(s: string): (n: nat)
    ensures n <= |s|
    ensures forall k :: 0 <= k < n ==> IsDigitOrComma(s[k])
    ensures n < |s| ==> !IsDigitOrComma(s[n])
  {
    if |s| > 0 && IsDigitOrComma(s[0]) then 1 + DigitCommaRun(s[1..]) else 0
  }

  lemma DigitCommaRunOf(g: string, rest: string)
    requires forall k :: 0 <= k < |g| ==> IsDigitOrComma(g[k])
    requires rest == [] || !IsDigitOrComma(rest[0])
    ensures DigitCommaRun(g + rest) == |g|
  {
    var s := g + rest;
    assert forall k :: 0 <= k < |g| ==> s[k] == g[k];
    assert |g| < |s| ==> s[|g|] == rest[0];
  }

  /** The length of the match `AMOUNT_REGEX` makes when tried at the start of
      `s`. The regex is deterministic there: a leading '(' is taken when
      present (without it the `\$` would have to match '('), the `[\d,]+` run
      is maximal (the '.' that must follow is outside the class), and a ')'
      right after the cents is taken when present. */
  function AmountPrefix(s: string): (r: Option<nat>)
    ensures r.Some? ==> 5 <= r.value <= |s|
  {
    var a := OpenLength(s);
    if |s| <= a || s[a] != '$' then None
    else
      var g := DigitCommaRun(s[a + 1..]);
      var p := a + 1 + g;
      if g == 0 || |s| < p + 3 || s[p] != '.' || !IsDigit(s[p + 1]) || !IsDigit(s[p + 2]) then None
      else if |s| > p + 3 && s[p + 3] == ')' then Some(p + 4)
      else Some(p + 3)
  }

  /** What `AmountPrefix` matches is a token. */
  lemma AmountPrefixToken(s: string)
    ensures AmountPrefix(s).Some? ==> IsAmountToken(s[..AmountPrefix(s).value])
  {
    if AmountPrefix(s).Some? {
      var a := OpenLength(s);
      var g := DigitCommaRun(s[a + 1..]);
      var p := a + 1 + g;
      var n := AmountPrefix(s).value;
      var t := s[..n];
      assert OpenLength(t) == a;
      assert Figure(t) == s[a..p + 3];
      var m := s[a..p + 3];
      var run := s[a + 1..];
      forall k | 1 <= k < g + 1
        ensures IsDigitOrComma(m[k])
      {
        assert m[k] == run[k - 1];
      }
    }
  }

  /** A token followed by nothing or by a space is matched exactly. */
  lemma TokenPrefix(t: string, rest: string)
    requires IsAmountToken(t)
    requires rest == [] || rest[0] == ' '
    ensures AmountPrefix(t + rest) == Some(|t|)
  {
    TokenLayout(t, rest);
    TokenRun(t, rest);
    AmountPrefixOf(t + rest, OpenLength(t), |Figure(t)| - 4, CloseLength(t));
  }

  /** Where the parts of a token sit once something is appended to it. */
  lemma TokenLayout(t: string, rest: string)
    requires IsAmountToken(t)
    requires rest == [] || rest[0] == ' '
    ensures var s, a, g := t + rest, OpenLength(t), |Figure(t)| - 4;
      && OpenLength(s) == a && a + 4 + g + CloseLength(t) == |t|
      && s[a] == '$' && s[a + 1 + g] == '.' && IsDigit(s[a + 2 + g]) && IsDigit(s[a + 3 + g])
      && (CloseLength(t) == 1 <==> (|s| > a + 4 + g && s[a + 4 + g] == ')'))
  {
    var a := OpenLength(t);
    var m := Figure(t);
    assert t[a..a + |m|] == m;
    assert m[0] == t[a];
  }

  lemma TokenRun(t: string, rest: string)
    requires IsAmountToken(t)
    ensures DigitCommaRun((t + rest)[OpenLength(t) + 1..]) == |Figure(t)| - 4
  {
    var m := Figure(t);
    var g := |m| - 4;
    var tail := t[|t| - CloseLength(t)..] + rest;
    TokenSuffix(t, rest);
    FigureRun(m, m[1..1 + g]);
    DigitCommaRunOf(m[1..1 + g], m[1 + g..] + tail);
  }

  /** What follows the '$' of a token with something appended. */
  lemma TokenSuffix(t: string, rest: string)
    requires IsAmountToken(t)
    ensures var m, a, c := Figure(t), OpenLength(t), CloseLength(t);
      (t + rest)[a + 1..] == m[1..|m| - 3] + (m[|m| - 3..] + (t[|t| - c..] + rest))
  {
    var a := OpenLength(t);
    var c := CloseLength(t);
    SuffixParts(t, rest, a, c, Figure(t));
  }

  /** The same cut for any inner part `m` of at least three characters. */
  lemma SuffixParts(t: string, rest: string, a: nat, c: nat, m: string)
    requires a + c <= |t| && m == t[a..|t| - c] && |m| >= 4
    ensures (t + rest)[a + 1..] == m[1..|m| - 3] + (m[|m| - 3..] + (t[|t| - c..] + rest))
  {
    assert (t + rest)[a + 1..] == t[a + 1..] + rest;
    assert t[a + 1..] == t[a + 1..|t| - c] + t[|t| - c..];
    assert t[a + 1..|t| - c] == m[1..];
    assert m[1..] == m[1..|m| - 3] + m[|m| - 3..];
  }

  /** The digits-and-commas run of a figure, and the '.' that ends it. */
  lemma FigureRun(m: string, run: string)
    requires IsDollarFigure(m) && run == m[1..|m| - 3]
    ensures forall k :: 0 <= k < |run| ==> IsDigitOrComma(run[k])
    ensures m[|m| - 3..][0] == '.'
  {
    assert forall k :: 0 <= k < |run| ==> run[k] == m[k + 1];
  }

  /** The matcher's verdict once the parts of a match have been located. */
  lemma AmountPrefixOf(s: string, a: nat, g: nat, c: nat)
    requires OpenLength(s) == a && a + 4 + g <= |s| && s[a] == '$'
    requires g >= 1 && DigitCommaRun(s[a + 1..]) == g
    requires s[a + 1 + g] == '.' && IsDigit(s[a + 2 + g]) && IsDigit(s[a + 3 + g])
    requires c <= 1 && a + 4 + g + c <= |s|
    requires c == 1 <==> (|s| > a + 4 + g && s[a + 4 + g] == ')')
    ensures AmountPrefix(s) == Some(a + 4 + g + c)
  {
  }

  /** `AmountPrefix` is an implementation of the whole-string test. */
  lemma AmountPrefixMatchesToken(t: string)
    ensures AmountPrefix(t) == Some(|t|) <==> IsAmountToken(t)
  {
    if IsAmountToken(t) {
      TokenPrefix(t, []);
      assert t + [] == t;
    }
    if AmountPrefix(t) == Some(|t|) {
      AmountPrefixToken(t);
      assert t[..|t|] == t;
    }
  }

  /** `line.scan AMOUNT_REGEX`: the successive leftmost non-overlapping matches. */
  function ScanAmounts(s: string): (r: seq<string>)
    ensures forall k :: 0 <= k < |r| ==> IsAmountToken(r[k])
    decreases |s|
  {
    if |s| == 0 then []
    else
      AmountPrefixToken(s);
      match AmountPrefix(s)
      case Some(n) => [s[..n]] + ScanAmounts(s[n..])
      case None => ScanAmounts(s[1..])
  }

  /** `line =~ AMOUNT_REGEX`: the regex matches somewhere in `s`. */
  predicate HasAmount(s: string) {
    exists i :: 0 <= i < |s| && AmountPrefix(s[i..]).Some?
  }

  /** Scanning finds a match exactly when there is one. */
  lemma {:induction false} ScanFindsAmount(s: string)
    ensures |ScanAmounts(s)| > 0 <==> HasAmount(s)
    decreases |s|
  {
    if |s| > 0 {
      assert s[0..] == s;
      if AmountPrefix(s).None? {
        ScanFindsAmount(s[1..]);
        if HasAmount(s) {
          var i :| 0 <= i < |s| && AmountPrefix(s[i..]).Some?;
          assert s[1..][i - 1..] == s[i..];
        }
        if HasAmount(s[1..]) {
          var i :| 0 <= i < |s| - 1 && AmountPrefix(s[1..][i..]).Some?;
          assert s[1..][i..] == s[i + 1..];
        }
      }
    }
  }

  lemma HasAmountAfter(x: string, t: string)
    requires IsAmountToken(t)
    ensures HasAmount(x + t)
  {
    AmountPrefixMatchesToken(t);
    assert (x + t)[|x|..] == t;
  }

  /** `AMOUNT_ONLY_REGEX`, `^ *AMOUNT *$`: `s` is an amount token surrounded
      by nothing but spaces. */
  predicate IsAmountOnly(s: string) {
    IsAmountToken(TrimSpaces(s))
  }

  /** Any token padded with spaces on both sides is amount-only. */
  lemma PaddedTokenIsAmountOnly(a: nat, t: string, b: nat)
    requires IsAmountToken(t)
    ensures IsAmountOnly(Spaces(a) + t + Spaces(b))
    ensures TrimSpaces(Spaces(a) + t + Spaces(b)) == t
  {
    TokenShape(t);
    TrimSpacesOf(a, t, b);
  }

  /** A string of the form `ddd.dd`, as `gsub(/[^\d.]/, '')` leaves an amount.
      The whole part may be empty: `[\d,]+` also admits a run of commas alone. */
  predicate IsDecimal(s: string) {
    && |s| >= 3
    && AllDigits(s[..|s| - 3])
    && s[|s| - 3] == '.'
    && AllDigits(s[|s| - 2..])
  }

  /** `to_f` of a decimal string with two fractional digits, in cents. */
  function DecimalCents(s: string): nat
    requires IsDecimal(s)
  {
    100 * DigitsValue(s[..|s| - 3]) + DigitsValue(s[|s| - 2..])
  }

  function Abs(x: int): nat {
    if x < 0 then -x else x
  }

  lemma {:induction false} KeepNumericOfDigitsAndCommas(g: string)
    requires forall k :: 0 <= k < |g| ==> IsDigitOrComma(g[k])
    ensures KeepNumeric(g) == RemoveCommas(g)
    ensures AllDigits(RemoveCommas(g))
  {
    if |g| > 0 {
      KeepNumericOfDigitsAndCommas(g[1..]);
    }
  }

  lemma DecimalShape(w: string, cents: string)
    requires AllDigits(w) && |cents| == 2 && AllDigits(cents)
    ensures IsDecimal(w + "." + cents)
    ensures DecimalCents(w + "." + cents) == 100 * DigitsValue(w) + DigitsValue(cents)
  {
    var r := w + "." + cents;
    assert r[..|r| - 3] == w;
    assert r[|r| - 2..] == cents;
  }

  /** What `gsub(/[^\d.]/, '')` leaves of a token: its digits without the
      thousands separators, the '.', and the two cents digits. */
  lemma KeepNumericOfToken(t: string)
    requires IsAmountToken(t)
    ensures KeepNumeric(t) == RemoveCommas(Figure(t)[1..|Figure(t)| - 3]) + "." + Figure(t)[|Figure(t)| - 2..]
  {
    var a := OpenLength(t);
    var c := CloseLength(t);
    var m := Figure(t);
    assert t == t[..a] + m + t[|t| - c..];
    KeepNumericAppend(t[..a] + m, t[|t| - c..]);
    KeepNumericAppend(t[..a], m);
    assert KeepNumeric(t[..a]) == [];
    assert KeepNumeric(t[|t| - c..]) == [];
    KeepNumericOfFigure(m);
  }

  lemma SplitFigure(m: string)
    requires IsDollarFigure(m)
    ensures m == m[..1] + (m[1..|m| - 3] + ("." + m[|m| - 2..]))
  {
  }

  lemma KeepNumericOfFigure(m: string)
    requires IsDollarFigure(m)
    ensures KeepNumeric(m) == RemoveCommas(m[1..|m| - 3]) + "." + m[|m| - 2..]
  {
    var g := m[1..|m| - 3];
    var cents := m[|m| - 2..];
    var tail := "." + cents;
    SplitFigure(m);
    KeepNumericAppend(m[..1], g + tail);
    assert KeepNumeric(m[..1]) == [];
    KeepNumericAppend(g, tail);
    KeepNumericOfDigitsAndCommas(g);
    assert KeepNumeric(tail) == tail by {
      assert AllDigits(cents);
      assert tail[1..] == cents;
      KeepNumericOfDigits(cents);
    }
  }

  /** `parse_amount`: the value of an amount token in cents, negative when the
      token opens with '('. */
  function ParseAmount(t: string): (cents: int)
    requires IsAmountToken(t)
    ensures t[0] == '(' ==> cents <= 0
    ensures t[0] != '(' ==> cents >= 0
  {
    var m := Figure(t);
    KeepNumericOfDigitsAndCommas(m[1..|m| - 3]);
    var magnitude := 100 * DigitsValue(RemoveCommas(m[1..|m| - 3])) + DigitsValue(m[|m| - 2..]);
    if t[0] == '(' then -magnitude else magnitude
  }

  /** The magnitude is that of the token with everything but digits and '.'
      removed (the thousands separators and parentheses dropped), read as a
      decimal with two fractional digits. */
  lemma ParseAmountMagnitude(t: string)
    requires IsAmountToken(t)
    ensures IsDecimal(KeepNumeric(t)) && Abs(ParseAmount(t)) == DecimalCents(KeepNumeric(t))
  {
    var m := Figure(t);
    var whole := RemoveCommas(m[1..|m| - 3]);
    var fraction := m[|m| - 2..];
    ParseAmountValue(t);
    assert Abs(ParseAmount(t)) == 100 * DigitsValue(whole) + DigitsValue(fraction);
    KeepNumericOfToken(t);
    DecimalShape(whole, fraction);
  }

  /** The statement's way of printing an amount in cents: `$1234.56`, or
      `($1234.56)` for a negative amount (without thousands separators). */
  function FormatAmount(cents: int): (t: string)
    ensures IsAmountToken(t)
  {
    var n := Abs(cents);
    var figure := "$" + NatToDigits(n / 100) + "." + PadDigits(n % 100, 2);
    assert forall k :: 1 <= k < |figure| - 3 ==> figure[k] == NatToDigits(n / 100)[k - 1];
    if cents < 0 then
      var t := "(" + figure + ")";
      assert Figure(t) == figure;
      t
    else
      assert Figure(figure) == figure;
      figure
  }

  /** Decoding a printed amount gives the amount back. */
  lemma ParseFormatAmount(cents: int)
    ensures ParseAmount(FormatAmount(cents)) == cents
  {
    var t := FormatAmount(cents);
    FormatMagnitude(cents);
    ParseAmountValue(t);
    FigureOfFormat(cents);
  }

  /** The figure of a printed amount reads back as its magnitude. */
  lemma FormatMagnitude(cents: int)
    ensures var m := Figure(FormatAmount(cents));
      && |m| >= 5 && AllDigits(RemoveCommas(m[1..|m| - 3]))
      && 100 * DigitsValue(RemoveCommas(m[1..|m| - 3])) + DigitsValue(m[|m| - 2..]) == Abs(cents)
  {
    var n := Abs(cents);
    var digits := NatToDigits(n / 100);
    var pad := PadDigits(n % 100, 2);
    FigureOfFormat(cents);
    FigureParts(digits, pad);
    RemoveCommasOfDigits(digits);
    DivMod100(n);
  }

  lemma DivMod100(n: nat)
    ensures 100 * (n / 100) + n % 100 == n
  {
  }

  lemma FigureOfFormat(cents: int)
    ensures var n := Abs(cents);
      Figure(FormatAmount(cents)) == "$" + NatToDigits(n / 100) + "." + PadDigits(n % 100, 2)
    ensures FormatAmount(cents)[0] == '(' <==> cents < 0
  {
    var n := Abs(cents);
    var figure := "$" + NatToDigits(n / 100) + "." + PadDigits(n % 100, 2);
    assert figure[0] == '$' && IsDigit(figure[|figure| - 1]);
    if cents < 0 {
      var t := "(" + figure + ")";
      assert FormatAmount(cents) == t;
      assert t[1..|t| - 1] == figure;
    } else {
      assert FormatAmount(cents) == figure;
      assert figure[0..|figure|] == figure;
    }
  }

  lemma FigureParts(digits: string, pad: string)
    requires |pad| == 2
    ensures var m := "$" + digits + "." + pad;
      m[1..|m| - 3] == digits && m[|m| - 2..] == pad
  {
    var m := "$" + digits + "." + pad;
    assert m == "$" + (digits + ("." + pad));
  }

  /** The value `ParseAmount` gives, in terms of the token's figure. */
  lemma ParseAmountValue(t: string)
    requires IsAmountToken(t)
    ensures AllDigits(RemoveCommas(Figure(t)[1..|Figure(t)| - 3])) && AllDigits(Figure(t)[|Figure(t)| - 2..])
    ensures var m := Figure(t);
      var magnitude := 100 * DigitsValue(RemoveCommas(m[1..|m| - 3])) + DigitsValue(m[|m| - 2..]);
      ParseAmount(t) == if t[0] == '(' then -magnitude else magnitude
  {
    KeepNumericOfDigitsAndCommas(Figure(t)[1..|Figure(t)| - 3]);
  }

  lemma ZeroIsPrintedAsRubyLiteral()
    ensures FormatAmount(0) == "$0.00"
  {
    assert NatToDigits(0) == "0";
    assert PadDigits(0, 2) == "00";
  }

  /** `$1,234.56` reads as 1234.56. */
  lemma ThousandsExample()
    ensures IsAmountToken("$1,234.56") && ParseAmount("$1,234.56") == 123456
  {
    var t := "$1,234.56";
    assert OpenLength(t) == 0 && CloseLength(t) == 0;
    assert Figure(t) == t;
    assert IsDollarFigure(t) by {
      assert t[1] == '1' && t[2] == ',' && t[3] == '2' && t[4] == '3' && t[5] == '4';
    }
    assert t[1..|t| - 3] == "1,234" && t[|t| - 2..] == "56";
    assert RemoveCommas("1,234") == "1234" by {
      assert "1,234"[1..] == ",234" && ",234"[1..] == "234";
      assert "234"[1..] == "34" && "34"[1..] == "4" && "4"[1..] == [];
    }
    DigitsExample();
    assert IsAmountToken(t);
    ParseAmountValue(t);
  }

  lemma DigitsExample()
    ensures DigitsValue("1234") == 1234 && DigitsValue("56") == 56
  {
    assert "1234"[..3] == "123" && "123"[..2] == "12" && "12"[..1] == "1" && "1"[..0] == [];
    assert "56"[..1] == "5" && "5"[..0] == [];
  }

  /** `($45.00)` reads as -45.00. */
  lemma ParenthesesExample()
    ensures IsAmountToken("($45.00)") && ParseAmount("($45.00)") == -4500
  {
    var t := "($45.00)";
    assert OpenLength(t) == 1 && CloseLength(t) == 1;
    var m := Figure(t);
    assert m == "$45.00";
    assert m[1..|m| - 3] == "45" && m[|m| - 2..] == "00";
    assert RemoveCommas("45") == "45" by {
      assert "45"[1..] == "5" && "5"[1..] == [];
    }
    assert DigitsValue("45") == 45 && DigitsValue("00") == 0 by {
      assert "45"[..1] == "4" && "4"[..0] == [];
      assert "00"[..1] == "0" && "0"[..0] == [];
    }
    assert IsAmountToken(t);
    ParseAmountValue(t);
  }
}
