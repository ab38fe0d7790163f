/** Transaction records: building one from a recognised statement line
    (`parse_transaction`), ordering a list of them by id and totalling it. */
module Ledger {
  import opened Results
  import opened Text
  import Amount
  import BillingPeriod
  import TransactionLine

  /** The description of the annual fee line; such lines are not read as
      transactions (the fee is synthesised from the summary label instead). */
  const MEMBER_FEE: string := "CAPITAL ONE MEMBER FEE"

  /** The description given to a synthesised interest charge. */
  const INTEREST_CHARGE: string := "INTEREST CHARGE:PURCHASES"

  /** `CapitalOneStatement::Transaction`; `amount` is in cents. */
  datatype Transaction = Transaction(
    id: nat,
    date: BillingPeriod.Date,
    description: string,
    amountText: string,
    amount: int)

  /** What every transaction read from a statement line satisfies: the
      amount is the decoding of the amount text, the date has a month of the
      calendar and a two-digit day, and the description is one the pattern
      can capture and is not the member fee. */
  predicate Recorded(t: Transaction) {
    && Amount.IsAmountToken(t.amountText) && t.amount == Amount.ParseAmount(t.amountText)
    && 1 <= t.date.month <= 12 && t.date.day < 100
    && |t.description| >= 2 && t.description[|t.description| - 1] != ' '
    && t.description != MEMBER_FEE
  }

  /** `check_billing_cycle`: a date can only be resolved once a billing
      period is known. */
  function CheckBillingCycle(period: Option<BillingPeriod.Period>): (r: Result<BillingPeriod.Period>)
    ensures r.Ok? <==> period.Some?
    ensures r.Ok? ==> r.value == period.value
    ensures r.Err? ==> r.error == BillingCycleUndetermined
  {
    if period.None? then Err(BillingCycleUndetermined) else Ok(period.value)
  }

  lemma TwoDigitsBelow100(s: string)
    requires |s| == 2 && AllDigits(s)
    ensures DigitsValue(s) < 100
  {
    assert AllDigits(s[..1]) && s[..1][..0] == [];
    assert DigitsValue(s[..1]) == s[0] as int - '0' as int;
  }

  /** `parse_transaction`: `Ok(None)` for a line that is not a transaction
      line or is the member-fee line; a failure when a transaction line
      appears before the billing period is known, or names no month. */
  function ParseTransaction(line: string, period: Option<BillingPeriod.Period>): (r: Result<Option<Transaction>>)
    ensures r.Ok? && r.value.Some? ==> Recorded(r.value.value)
    ensures r.Ok? && r.value.Some? ==> (period.Some?
      && r.value.value.date.year == BillingPeriod.TransactionYear(BillingPeriod.MonthName(r.value.value.date.month), period.value))
    ensures r.Err? && period.None? ==> r.error == BillingCycleUndetermined
    ensures r.Err? && period.Some? ==> r.error.InvalidDate?
  {
    var o := TransactionLine.MatchTransaction(TransactionLine.Current, line);
    MatchedWellFormed(line);
    if o.None? || o.value.desc == MEMBER_FEE then Ok(None)
    else
      var p :- CheckBillingCycle(period);
      match BillingPeriod.MonthNumber(o.value.month)
      case None => Err(InvalidDate(o.value.month))
      case Some(m) => Ok(Some(Record(o.value, p, m)))
  }

  /** The captures the recogniser returns have the transaction shape. */
  lemma MatchedWellFormed(line: string)
    ensures var o := TransactionLine.MatchTransaction(TransactionLine.Current, line);
      o.Some? ==> TransactionLine.WellFormed(TransactionLine.Current, o.value)
  {
    TransactionLine.ShapeSound(line, false);
  }

  /** The record built from the captures `f` of a transaction line whose month
      abbreviation reads as month `m`, dated within period `p`. */
  function Record(f: TransactionLine.Fields, p: BillingPeriod.Period, m: nat): (t: Transaction)
    requires TransactionLine.WellFormed(TransactionLine.Current, f) && f.desc != MEMBER_FEE
    requires 1 <= m <= 12 && BillingPeriod.SameAbbrev(f.month, BillingPeriod.MonthName(m))
    ensures Recorded(t)
    ensures t.date.year == BillingPeriod.TransactionYear(BillingPeriod.MonthName(t.date.month), p)
  {
    TwoDigitsBelow100(f.day);
    SameMonthYear(f.month, m, p);
    var date := BillingPeriod.Date(BillingPeriod.TransactionYear(f.month, p), m, DigitsValue(f.day));
    Transaction(DigitsValue(f.id), date, f.desc, f.amount, Amount.ParseAmount(f.amount))
  }

  /** The year rule reads the same from any spelling of a month. */
  lemma SameMonthYear(month: string, m: nat, p: BillingPeriod.Period)
    requires 1 <= m <= 12 && BillingPeriod.SameAbbrev(month, BillingPeriod.MonthName(m))
    ensures BillingPeriod.TransactionYear(month, p) == BillingPeriod.TransactionYear(BillingPeriod.MonthName(m), p)
  {
    BillingPeriod.MonthNamesAreUpper(m);
  }

  /** The captures a statement prints for a transaction. */
  function FieldsOf(t: Transaction): (f: TransactionLine.Fields)
    requires Recorded(t)
    ensures TransactionLine.WellFormed(TransactionLine.Current, f)
  {
    BillingPeriod.MonthNamesAreUpper(t.date.month);
    Amount.TokenShape(t.amountText);
    TransactionLine.Fields(NatToDigits(t.id), PadDigits(t.date.day, 2),
      BillingPeriod.MonthName(t.date.month), t.description, t.amountText)
  }

  /** Reading back a printed transaction line gives the transaction, for
      every layout of the line, provided its year is the one the period
      assigns to its month. */
  lemma ParsePrintedTransaction(t: Transaction, p: BillingPeriod.Period, lead: nat, gap: nat, pad: nat, trail: nat)
    requires Recorded(t)
    requires t.date.year == BillingPeriod.TransactionYear(BillingPeriod.MonthName(t.date.month), p)
    requires gap >= 1 && pad >= 1
    ensures ParseTransaction(TransactionLine.Render(FieldsOf(t), lead, gap, pad, trail), Some(p)) == Ok(Some(t))
  {
    var f := FieldsOf(t);
    var line := TransactionLine.Render(f, lead, gap, pad, trail);
    assert TransactionLine.Laid(line, f, false);
    TransactionLine.MatchTransactionIff(TransactionLine.Current, line, f);
    BillingPeriod.MonthNumberOfName(t.date.month);
  }

  /** A line yields no record exactly when every way the pattern matches it
      names the member fee. */
  lemma ParseTransactionNone(line: string, period: Option<BillingPeriod.Period>)
    ensures ParseTransaction(line, period) == Ok(None)
      <==> forall f :: TransactionLine.Matches(TransactionLine.Current, line, f) ==> f.desc == MEMBER_FEE
  {
    var o := TransactionLine.MatchTransaction(TransactionLine.Current, line);
    if ParseTransaction(line, period) == Ok(None) {
      forall f | TransactionLine.Matches(TransactionLine.Current, line, f)
        ensures f.desc == MEMBER_FEE
      {
        TransactionLine.MatchTransactionIff(TransactionLine.Current, line, f);
      }
    } else {
      TransactionLine.MatchTransactionIff(TransactionLine.Current, line, o.value);
    }
  }

  /** A line makes the parse fail exactly when it is a transaction line
      other than the member fee and either no period is known or its month
      is not one of the twelve. */
  lemma ParseTransactionFails(line: string, period: Option<BillingPeriod.Period>)
    ensures ParseTransaction(line, period).Err? <==>
      exists f :: Failing(line, period, f)
  {
    var o := TransactionLine.MatchTransaction(TransactionLine.Current, line);
    if ParseTransaction(line, period).Err? {
      TransactionLine.MatchTransactionIff(TransactionLine.Current, line, o.value);
      assert Failing(line, period, o.value);
    }
    if f :| Failing(line, period, f) {
      TransactionLine.MatchTransactionIff(TransactionLine.Current, line, f);
    }
  }

  /** The pattern matches `line` with captures `f`, which are not the member
      fee, and no date can be given to them. */
  ghost predicate Failing(line: string, period: Option<BillingPeriod.Period>, f: TransactionLine.Fields) {
    && TransactionLine.Matches(TransactionLine.Current, line, f)
    && f.desc != MEMBER_FEE
    && (period.None? || BillingPeriod.MonthNumber(f.month).None?)
  }

  /** Ids never decrease along `s`. */
  predicate SortedById(s: seq<Transaction>) {
    forall i, j :: 0 <= i < j < |s| ==> s[i].id <= s[j].id
  }

  /** Places `t` into the sorted `s` before the first record with a larger id. */
  function Insert(t: Transaction, s: seq<Transaction>): (r: seq<Transaction>)
    requires SortedById(s)
    ensures SortedById(r)
    ensures multiset(r) == multiset(s) + multiset{t}
    ensures |r| == |s| + 1 && (r[0] == t || (|s| > 0 && r[0] == s[0]))
  {
    if |s| == 0 || t.id <= s[0].id then [t] + s
    else
      var rest := Insert(t, s[1..]);
      assert s == [s[0]] + s[1..];
      [s[0]] + rest
  }

  /** `sort_by {|trx| trx[:id]}`. Ruby's sort is not stable, so only the
      order of ids is fixed: the result is sorted and a permutation. */
  function SortById(s: seq<Transaction>): (r: seq<Transaction>)
    ensures SortedById(r)
    ensures multiset(r) == multiset(s)
  {
    if |s| == 0 then []
    else
      assert s == [s[0]] + s[1..];
      Insert(s[0], SortById(s[1..]))
  }

  /** `inject(0) {|sum, trx| sum += trx[:amount]}`, in cents. */
  function Sum(s: seq<Transaction>): int {
    if |s| == 0 then 0 else s[0].amount + Sum(s[1..])
  }

  lemma {:induction false} SumAppend(a: seq<Transaction>, b: seq<Transaction>)
    ensures Sum(a + b) == Sum(a) + Sum(b)
    decreases |a|
  {
    if |a| == 0 {
      assert a + b == b;
    } else {
      assert (a + b)[1..] == a[1..] + b;
      SumAppend(a[1..], b);
    }
  }

  /** Removing one record takes its amount off the total. */
  lemma SumRemove(s: seq<Transaction>, i: nat)
    requires i < |s|
    ensures Sum(s) == s[i].amount + Sum(s[..i] + s[i + 1..])
  {
    assert s == s[..i] + s[i..];
    assert s[i..][1..] == s[i + 1..];
    SumAppend(s[..i], s[i..]);
    SumAppend(s[..i], s[i + 1..]);
  }

  lemma MultisetRemove(s: seq<Transaction>, i: nat)
    requires i < |s|
    ensures multiset(s[..i] + s[i + 1..]) == multiset(s) - multiset{s[i]}
  {
    assert s == s[..i] + [s[i]] + s[i + 1..];
  }

  /** The total does not depend on the order of the records. */
  lemma {:induction false} SumOfPermutation(a: seq<Transaction>, b: seq<Transaction>)
    requires multiset(a) == multiset(b)
    ensures Sum(a) == Sum(b)
    decreases |a|
  {
    if |a| == 0 {
      assert |b| == |multiset(b)| == 0;
    } else {
      assert a[0] in multiset(b);
      var i :| 0 <= i < |b| && b[i] == a[0];
      MultisetRemove(b, i);
      assert a == [a[0]] + a[1..];
      assert multiset(a[1..]) == multiset(a) - multiset{a[0]};
      SumRemove(b, i);
      SumOfPermutation(a[1..], b[..i] + b[i + 1..]);
    }
  }

  /** Sorting keeps the total. */
  lemma SortKeepsSum(s: seq<Transaction>)
    ensures Sum(SortById(s)) == Sum(s)
  {
    SumOfPermutation(SortById(s), s);
  }
}
