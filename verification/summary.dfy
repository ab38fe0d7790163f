/** The statement's summary block and its fee labels
    (lib/parse_capitalone_pdf_statement.rb:42-43, 146-177): the five totals
    read from the first line that holds exactly five amounts, and the fee
    and interest records synthesised from the "Total ... This Period" labels. */
module Summary {
  import opened Results
  import opened Text
  import Amount
  import BillingPeriod
  import Ledger

  /** The five summary figures in cents. `payments` is stored negated, as the
      statement prints payments as a positive figure but records them as
      negative amounts. */
  datatype Totals = Totals(previousBalance: int, payments: int, fees: int, transactions: int, newBalance: int)

  /** The summary read from a line, while none has been read yet. Once a
      summary is known, no later line changes it. */
  function CaptureSummary(line: string, summary: Option<Totals>): (r: Option<Totals>)
    ensures summary.Some? ==> r == summary
    ensures summary.None? ==> (r.Some? <==> |Amount.ScanAmounts(line)| == 5)
  {
    if summary.Some? then summary
    else
      var tokens := Amount.ScanAmounts(line);
      if |tokens| != 5 then None
      else
        Some(Totals(Amount.ParseAmount(tokens[0]), -Amount.ParseAmount(tokens[1]), Amount.ParseAmount(tokens[2]),
                    Amount.ParseAmount(tokens[3]), Amount.ParseAmount(tokens[4])))
  }

  /** Tokens written one after another, a space between each two. */
  function Joined(ts: seq<string>): string {
    if |ts| == 0 then [] else if |ts| == 1 then ts[0] else ts[0] + " " + Joined(ts[1..])
  }

  /** A token at the start of the text is the first thing the scan finds. */
  lemma ScanToken(t: string, rest: string)
    requires Amount.IsAmountToken(t)
    requires rest == [] || rest[0] == ' '
    ensures Amount.ScanAmounts(t + rest) == [t] + Amount.ScanAmounts(rest)
  {
    Amount.TokenShape(t);
    Amount.TokenPrefix(t, rest);
    assert (t + rest)[..|t|] == t;
    assert (t + rest)[|t|..] == rest;
  }

  lemma ScanSpace(rest: string)
    ensures Amount.ScanAmounts(" " + rest) == Amount.ScanAmounts(rest)
  {
    assert (" " + rest)[1..] == rest;
  }

  /** Scanning a line of space-separated tokens finds exactly those tokens. */
  lemma {:induction false} ScanJoined(ts: seq<string>)
    requires forall k :: 0 <= k < |ts| ==> Amount.IsAmountToken(ts[k])
    ensures Amount.ScanAmounts(Joined(ts)) == ts
    decreases |ts|
  {
    if |ts| == 1 {
      ScanToken(ts[0], []);
      assert ts[0] + [] == ts[0];
    } else if |ts| > 1 {
      var rest := Joined(ts[1..]);
      assert ts[0] + " " + rest == ts[0] + (" " + rest);
      ScanToken(ts[0], " " + rest);
      ScanSpace(rest);
      ScanJoined(ts[1..]);
      assert ts == [ts[0]] + ts[1..];
    }
  }

  /** Reading a summary block printed as five space-separated amounts gives
      back their values, in the order previous balance, payments, fees,
      transactions, new balance, with the payments negated. */
  lemma CaptureSummaryLine(ts: seq<string>)
    requires |ts| == 5 && forall k :: 0 <= k < |ts| ==> Amount.IsAmountToken(ts[k])
    ensures CaptureSummary(Joined(ts), None) == Some(Totals(Amount.ParseAmount(ts[0]), -Amount.ParseAmount(ts[1]),
      Amount.ParseAmount(ts[2]), Amount.ParseAmount(ts[3]), Amount.ParseAmount(ts[4])))
  {
    ScanJoined(ts);
    CaptureOfTokens(Joined(ts), ts);
  }

  /** The summary a line yields, in terms of the five tokens found on it. */
  lemma CaptureOfTokens(line: string, ts: seq<string>)
    requires Amount.ScanAmounts(line) == ts && |ts| == 5
    ensures Amount.IsAmountToken(ts[0]) && Amount.IsAmountToken(ts[1]) && Amount.IsAmountToken(ts[2])
    ensures Amount.IsAmountToken(ts[3]) && Amount.IsAmountToken(ts[4])
    ensures CaptureSummary(line, None) == Some(Totals(Amount.ParseAmount(ts[0]), -Amount.ParseAmount(ts[1]),
      Amount.ParseAmount(ts[2]), Amount.ParseAmount(ts[3]), Amount.ParseAmount(ts[4])))
  {
  }

  /** A line with other than five amounts leaves the summary unread. */
  lemma NoSummaryWithoutFive(line: string, ts: seq<string>)
    requires forall k :: 0 <= k < |ts| ==> Amount.IsAmountToken(ts[k])
    requires |ts| != 5 && line == Joined(ts)
    ensures CaptureSummary(line, None) == None
  {
    ScanJoined(ts);
  }

  const FEES_LABEL: string := "Total Fees This Period"
  const INTEREST_LABEL: string := "Total Interest This Period"

  /** The amount text `$0.00` for which no fee is recorded. */
  const ZERO: string := "$0.00"

  /** The amount `label +AMOUNT` captures when its match starts at the
      beginning of `s`: the label, then at least one space, then an amount
      (the spaces cannot give any back, as an amount never starts with a
      space). */
  function LabelMatch(s: string, caption: string): (r: Option<string>)
    ensures r.Some? ==> Amount.IsAmountToken(r.value)
  {
    if |s| < |caption| || s[..|caption|] != caption then None else GapToken(s[|caption|..])
  }

  /** The amount ` +(AMOUNT)` captures at the beginning of `s`. */
  function GapToken(s: string): (r: Option<string>)
    ensures r.Some? ==> Amount.IsAmountToken(r.value)
  {
    var k := SpacesFrom(s, 0);
    if k == 0 then None else TokenAt(s[k..])
  }

  /** The amount `AMOUNT` matches at the beginning of `s`, if any. */
  function TokenAt(s: string): (r: Option<string>)
    ensures r.Some? ==> Amount.IsAmountToken(r.value)
  {
    Amount.AmountPrefixToken(s);
    match Amount.AmountPrefix(s)
    case None => None
    case Some(n) => Some(s[..n])
  }

  /** `line =~ label +(AMOUNT)` and its capture `$1`: the match is tried at
      each position from the left, and the first one that matches counts. */
  function FindLabelled(line: string, caption: string): (r: Option<string>)
    ensures r.Some? ==> Amount.IsAmountToken(r.value)
    decreases |line|
  {
    match LabelMatch(line, caption)
    case Some(t) => Some(t)
    case None => if |line| == 0 then None else FindLabelled(line[1..], caption)
  }

  /** The search finds nothing exactly when the pattern matches at no
      position. */
  lemma {:induction false} FindLabelledNone(line: string, caption: string)
    ensures FindLabelled(line, caption).None? <==> forall j :: 0 <= j <= |line| ==> LabelMatch(line[j..], caption).None?
    decreases |line|
  {
    assert line[0..] == line;
    if LabelMatch(line, caption).None? && |line| > 0 {
      FindLabelledNone(line[1..], caption);
      forall j | 1 <= j <= |line|
        ensures line[1..][j - 1..] == line[j..]
      {
      }
    }
  }

  /** When the search finds something, it is the capture of the leftmost
      position where the pattern matches. */
  lemma {:induction false} FindLabelledLeftmost(line: string, caption: string) returns (j: nat)
    requires FindLabelled(line, caption).Some?
    ensures j <= |line| && LabelMatch(line[j..], caption) == FindLabelled(line, caption)
    ensures forall i :: 0 <= i < j ==> LabelMatch(line[i..], caption).None?
    decreases |line|
  {
    assert line[0..] == line;
    if LabelMatch(line, caption).Some? {
      j := 0;
    } else {
      var j' := FindLabelledLeftmost(line[1..], caption);
      j := j' + 1;
      assert line[1..][j'..] == line[j..];
      forall i | 1 <= i < j
        ensures LabelMatch(line[i..], caption).None?
      {
        assert line[1..][i - 1..] == line[i..];
      }
    }
  }

  /** The label followed by spaces and an amount matches at the start. */
  lemma LabelMatchPrinted(caption: string, k: nat, t: string, rest: string)
    requires k >= 1 && Amount.IsAmountToken(t)
    requires rest == [] || rest[0] == ' '
    ensures LabelMatch(caption + Spaces(k) + t + rest, caption) == Some(t)
  {
    var gap := Spaces(k) + (t + rest);
    var s := caption + gap;
    assert s == caption + Spaces(k) + t + rest;
    CatParts(caption, gap);
    GapTokenPrinted(k, t, rest);
  }

  lemma GapTokenPrinted(k: nat, t: string, rest: string)
    requires k >= 1 && Amount.IsAmountToken(t)
    requires rest == [] || rest[0] == ' '
    ensures GapToken(Spaces(k) + (t + rest)) == Some(t)
  {
    var tail := t + rest;
    var gap := Spaces(k) + tail;
    TokenAfterGap(tail, t, rest);
    CatParts(Spaces(k), tail);
    assert gap[k] == tail[0];
    assert forall i :: 0 <= i < k ==> gap[i] == Spaces(k)[i];
    SpacesFromOf(gap, 0, k);
  }

  /** A token followed by nothing or a space is what `AMOUNT` matches at the
      start. */
  lemma TokenAfterGap(tail: string, t: string, rest: string)
    requires Amount.IsAmountToken(t)
    requires rest == [] || rest[0] == ' '
    requires tail == t + rest
    ensures TokenAt(tail) == Some(t) && tail != [] && tail[0] != ' '
  {
    Amount.TokenShape(t);
    Amount.TokenPrefix(t, rest);
    assert tail[..|t|] == t;
  }

  /** The label printed after some indentation and followed by spaces and an
      amount is found, with that amount. */
  lemma FindPrintedLabel(a: nat, caption: string, k: nat, t: string, rest: string)
    requires caption != [] && caption[0] != ' '
    requires k >= 1 && Amount.IsAmountToken(t)
    requires rest == [] || rest[0] == ' '
    ensures FindLabelled(Spaces(a) + caption + Spaces(k) + t + rest, caption) == Some(t)
  {
    var body := caption + Spaces(k) + t + rest;
    assert Spaces(a) + caption + Spaces(k) + t + rest == Spaces(a) + body;
    SkipIndent(a, body, caption);
    LabelMatchPrinted(caption, k, t, rest);
  }

  /** No match starts in the indentation before a label that does not itself
      start with a space. */
  lemma {:induction false} SkipIndent(a: nat, body: string, caption: string)
    requires caption != [] && caption[0] != ' '
    ensures FindLabelled(Spaces(a) + body, caption) == FindLabelled(body, caption)
    decreases a
  {
    var line := Spaces(a) + body;
    if a == 0 {
      assert line == body;
    } else {
      assert line[0] == ' ';
      assert |line| >= |caption| ==> line[..|caption|][0] == line[0];
      assert LabelMatch(line, caption).None?;
      assert line[1..] == Spaces(a - 1) + body;
      SkipIndent(a - 1, body, caption);
    }
  }

  /** All fees are numbered 1, 2, ... in the order they were recorded. */
  predicate Numbered(fees: seq<Ledger.Transaction>) {
    forall k :: 0 <= k < |fees| ==> fees[k].id == k + 1
  }

  /** Every fee has a decoded amount and is dated on the last day of `period`. */
  predicate FeesDated(fees: seq<Ledger.Transaction>, period: Option<BillingPeriod.Period>) {
    forall k :: 0 <= k < |fees| ==>
      && period.Some? && fees[k].date == period.value.end
      && Amount.IsAmountToken(fees[k].amountText) && fees[k].amount == Amount.ParseAmount(fees[k].amountText)
  }

  /** A label captured an amount other than `$0.00`. */
  predicate Charged(token: Option<string>) {
    token.Some? && token.value != ZERO
  }

  /** The fee record a captured amount `token` stands for, numbered `id` and
      dated on the period's last day: none unless it is charged. */
  function Levied(token: Option<string>, description: string, id: nat, p: BillingPeriod.Period)
    : seq<Ledger.Transaction>
    requires token.Some? ==> Amount.IsAmountToken(token.value)
  {
    if !Charged(token) then []
    else [Ledger.Transaction(id, p.end, description, token.value, Amount.ParseAmount(token.value))]
  }

  /** Records a fee for the captured amount `token` unless nothing was
      captured or it reads `$0.00`; recording one needs the billing period. */
  function AddFee(fees: seq<Ledger.Transaction>, token: Option<string>, description: string,
                  period: Option<BillingPeriod.Period>): (r: Result<seq<Ledger.Transaction>>)
    requires token.Some? ==> Amount.IsAmountToken(token.value)
    ensures token.None? || token.value == ZERO ==> r == Ok(fees)
    ensures token.Some? && token.value != ZERO ==> (r.Ok? <==> period.Some?)
    ensures r.Err? ==> r.error == BillingCycleUndetermined
    ensures r.Ok? && token.Some? && token.value != ZERO ==>
      && |r.value| == |fees| + 1 && r.value[..|fees|] == fees
      && r.value[|fees|] == Ledger.Transaction(|fees| + 1, period.value.end, description, token.value,
                                               Amount.ParseAmount(token.value))
    ensures r.Ok? && Numbered(fees) ==> Numbered(r.value)
    ensures r.Ok? && FeesDated(fees, period) ==> FeesDated(r.value, period)
  {
    if token.None? || token.value == ZERO then Ok(fees)
    else
      var p :- Ledger.CheckBillingCycle(period);
      var t := token.value;
      var fee := Ledger.Transaction(|fees| + 1, p.end, description, t, Amount.ParseAmount(t));
      assert (fees + [fee])[..|fees|] == fees;
      Ok(fees + [fee])
  }
}
