/** The statement parse as a whole (lib/parse_capitalone_pdf_statement.rb:58-86,
    105-192, 223-231): a fold over the lines of every page carrying the parser
    state, then sorting each list by id and reconciling it against the
    summary block. */
module Statement {
  import opened Results
  import opened Text
  import Amount
  import BillingPeriod
  import Columns
  import Ledger
  import Summary
  import TransactionLine

  /** The instance variables the parse fills in. `period` stands for
      `@year`, `@dec_from_prev_year`, `@start_date` and `@end_date`, which
      are set together; `summary` for the five totals, also set together. */
  datatype State = State(
    period: Option<BillingPeriod.Period>,
    summary: Option<Summary.Totals>,
    payments: seq<Ledger.Transaction>,
    transactions: seq<Ledger.Transaction>,
    fees: seq<Ledger.Transaction>)

  /** The state `initialize` starts from (lines 59-70). */
  const INITIAL: State := State(None, None, [], [], [])

  /** A transaction record that belongs to the statement: read from a line
      and dated in the year its month resolves to in `period`. */
  predicate Kept(t: Ledger.Transaction, period: Option<BillingPeriod.Period>) {
    && Ledger.Recorded(t) && period.Some?
    && t.date.year == BillingPeriod.TransactionYear(BillingPeriod.MonthName(t.date.month), period.value)
  }

  /** What the parse keeps true of its state: charges are never negative,
      payments always are, and fees are numbered from 1 and dated on the last
      day of the period. */
  predicate Inv(st: State) {
    && (forall k :: 0 <= k < |st.transactions| ==> Kept(st.transactions[k], st.period) && st.transactions[k].amount >= 0)
    && (forall k :: 0 <= k < |st.payments| ==> Kept(st.payments[k], st.period) && st.payments[k].amount < 0)
    && Summary.Numbered(st.fees) && Summary.FeesDated(st.fees, st.period)
  }

  /** Each list of `b` extends the same list of `a`. */
  predicate Grows(a: State, b: State) {
    a.payments <= b.payments && a.transactions <= b.transactions && a.fees <= b.fees
  }

  /** The first half of `partition {|trx| trx[:amount] >= 0}`: the records
      whose amount is not negative, in their order. */
  function Charges(rs: seq<Ledger.Transaction>): (r: seq<Ledger.Transaction>)
    ensures forall k :: 0 <= k < |r| ==> r[k].amount >= 0 && r[k] in rs
  {
    if |rs| == 0 then []
    else if rs[0].amount >= 0 then [rs[0]] + Charges(rs[1..])
    else Charges(rs[1..])
  }

  /** The second half: the records with a negative amount, in their order. */
  function Credits(rs: seq<Ledger.Transaction>): (r: seq<Ledger.Transaction>)
    ensures forall k :: 0 <= k < |r| ==> r[k].amount < 0 && r[k] in rs
  {
    if |rs| == 0 then []
    else if rs[0].amount < 0 then [rs[0]] + Credits(rs[1..])
    else Credits(rs[1..])
  }

  /** The two halves together hold every record exactly once. */
  lemma {:induction false} PartitionKeepsAll(rs: seq<Ledger.Transaction>)
    ensures multiset(Charges(rs)) + multiset(Credits(rs)) == multiset(rs)
    decreases |rs|
  {
    if |rs| > 0 {
      var rest := rs[1..];
      PartitionKeepsAll(rest);
      ConsMultiset(rs);
      if rs[0].amount >= 0 {
        ConsMultiset(Charges(rs));
        assert Charges(rs)[1..] == Charges(rest);
      } else {
        ConsMultiset(Credits(rs));
        assert Credits(rs)[1..] == Credits(rest);
      }
    }
  }

  /** A non-empty sequence holds its head once more than its tail. */
  lemma ConsMultiset<T>(s: seq<T>)
    requires |s| > 0
    ensures multiset(s) == multiset{s[0]} + multiset(s[1..])
  {
    assert s == [s[0]] + s[1..];
  }

  /** Splitting by sign keeps the order of the lines: the halves of two runs
      of records are the halves of the first followed by those of the second. */
  lemma {:induction false} SplitAppend(a: seq<Ledger.Transaction>, b: seq<Ledger.Transaction>)
    ensures Charges(a + b) == Charges(a) + Charges(b)
    ensures Credits(a + b) == Credits(a) + Credits(b)
    decreases |a|
  {
    if |a| == 0 {
      assert a + b == b;
    } else {
      assert (a + b)[0] == a[0];
      assert (a + b)[1..] == a[1..] + b;
      SplitAppend(a[1..], b);
    }
  }

  /** The records read from the two columns of `line` (lines 179-186): each
      column is repaired against the same column of the next line, which is
      empty at the end of a page, then parsed, the left one first. */
  function ColumnRecords(line: string, next: Option<string>, period: Option<BillingPeriod.Period>)
    : (r: Result<seq<Ledger.Transaction>>)
    ensures r.Ok? ==> |r.value| <= 2 && forall k :: 0 <= k < |r.value| ==> Kept(r.value[k], period)
    ensures r.Err? ==> (period.None? <==> r.error == BillingCycleUndetermined)
    ensures r.Err? ==> r.error.BillingCycleUndetermined? || r.error.InvalidDate?
  {
    var a :- Ledger.ParseTransaction(Columns.Repaired(line, next, Columns.LEFT), period);
    var b :- Ledger.ParseTransaction(Columns.Repaired(line, next, Columns.RIGHT), period);
    Ok(Compact([a, b]))
  }

  /** What a line's columns read as: the record of the repaired left column
      (characters 0-78), then that of the repaired right column (80 on); the
      first column that raises decides the error. */
  lemma ColumnsRead(line: string, next: Option<string>, period: Option<BillingPeriod.Period>)
    ensures Ledger.ParseTransaction(Columns.Repaired(line, next, Columns.LEFT), period).Err? ==>
      ColumnRecords(line, next, period) == Err(Ledger.ParseTransaction(Columns.Repaired(line, next, Columns.LEFT), period).error)
    ensures Ledger.ParseTransaction(Columns.Repaired(line, next, Columns.LEFT), period).Ok? &&
            Ledger.ParseTransaction(Columns.Repaired(line, next, Columns.RIGHT), period).Err? ==>
      ColumnRecords(line, next, period) == Err(Ledger.ParseTransaction(Columns.Repaired(line, next, Columns.RIGHT), period).error)
    ensures Ledger.ParseTransaction(Columns.Repaired(line, next, Columns.LEFT), period).Ok? &&
            Ledger.ParseTransaction(Columns.Repaired(line, next, Columns.RIGHT), period).Ok? ==>
      ColumnRecords(line, next, period) ==
        Ok(Listed(Ledger.ParseTransaction(Columns.Repaired(line, next, Columns.LEFT), period).value) +
           Listed(Ledger.ParseTransaction(Columns.Repaired(line, next, Columns.RIGHT), period).value))
  {
    var a := Ledger.ParseTransaction(Columns.Repaired(line, next, Columns.LEFT), period);
    var b := Ledger.ParseTransaction(Columns.Repaired(line, next, Columns.RIGHT), period);
    if a.Ok? && b.Ok? {
      CompactPair(a.value, b.value);
    }
  }

  /** `parse_pdf_line`: the summary while none is known, the fee and the
      interest records, then the records of both columns, split by sign. */
  function ProcessLine(st: State, line: string, next: Option<string>): (r: Result<State>)
    ensures r.Ok? ==> r.value.period == st.period && Grows(st, r.value)
    ensures r.Ok? ==> r.value.summary == Summary.CaptureSummary(line, st.summary)
    ensures r.Ok? && Inv(st) ==> Inv(r.value)
    ensures r.Err? ==> (st.period.None? <==> r.error == BillingCycleUndetermined)
    ensures r.Err? ==> r.error.BillingCycleUndetermined? || r.error.InvalidDate?
    ensures r.Ok? <==> LineFees(st.fees, line, st.period).Ok? && ColumnRecords(line, next, st.period).Ok?
    ensures r.Ok? ==> r.value.fees == LineFees(st.fees, line, st.period).value
    ensures r.Ok? ==> && r.value.transactions == st.transactions + Charges(ColumnRecords(line, next, st.period).value)
                      && r.value.payments == st.payments + Credits(ColumnRecords(line, next, st.period).value)
  {
    var fees :- LineFees(st.fees, line, st.period);
    var records :- ColumnRecords(line, next, st.period);
    AbsorbKeepsInv(st, Summary.CaptureSummary(line, st.summary), fees, records);
    Ok(Absorb(st, Summary.CaptureSummary(line, st.summary), fees, records))
  }

  /** Lines 159-177: the fee and then the interest charge a line labels. */
  function LineFees(fees: seq<Ledger.Transaction>, line: string, period: Option<BillingPeriod.Period>)
    : (r: Result<seq<Ledger.Transaction>>)
    ensures r.Ok? ==> fees <= r.value
    ensures r.Ok? && Summary.Numbered(fees) ==> Summary.Numbered(r.value)
    ensures r.Ok? && Summary.FeesDated(fees, period) ==> Summary.FeesDated(r.value, period)
    ensures r.Err? ==> r.error == BillingCycleUndetermined && period.None?
  {
    Levy(fees, Summary.FindLabelled(line, Summary.FEES_LABEL), Summary.FindLabelled(line, Summary.INTEREST_LABEL), period)
  }

  /** The member fee captured as `fee`, then the interest charge captured as
      `interest`. */
  function Levy(fees: seq<Ledger.Transaction>, fee: Option<string>, interest: Option<string>,
                period: Option<BillingPeriod.Period>): (r: Result<seq<Ledger.Transaction>>)
    requires fee.Some? ==> Amount.IsAmountToken(fee.value)
    requires interest.Some? ==> Amount.IsAmountToken(interest.value)
    ensures r.Ok? ==> fees <= r.value
    ensures r.Ok? && Summary.Numbered(fees) ==> Summary.Numbered(r.value)
    ensures r.Ok? && Summary.FeesDated(fees, period) ==> Summary.FeesDated(r.value, period)
    ensures r.Err? ==> r.error == BillingCycleUndetermined && period.None?
  {
    var withFee :- Summary.AddFee(fees, fee, Ledger.MEMBER_FEE, period);
    Summary.AddFee(withFee, interest, Ledger.INTEREST_CHARGE, period)
  }

  /** With a known period a line gains its member fee and then its interest
      charge, each when its label captures an amount other than `$0.00`
      (`fee` and `interest` are the two captures), numbered on from the fees
      already recorded and dated on the period's last day. */
  lemma LineFeesRecords(fees: seq<Ledger.Transaction>, line: string, p: BillingPeriod.Period,
                        fee: Option<string>, interest: Option<string>)
    requires fee == Summary.FindLabelled(line, Summary.FEES_LABEL)
    requires interest == Summary.FindLabelled(line, Summary.INTEREST_LABEL)
    ensures LineFees(fees, line, Some(p)) ==
      Ok(fees + Summary.Levied(fee, Ledger.MEMBER_FEE, |fees| + 1, p)
         + Summary.Levied(interest, Ledger.INTEREST_CHARGE, |fees| + |Summary.Levied(fee, Ledger.MEMBER_FEE, |fees| + 1, p)| + 1, p))
  {
    LevyRecords(fees, fee, interest, p);
    LineFeesLevy(fees, line, Some(p));
  }

  /** The fees of a line are those of its two captures. */
  lemma LineFeesLevy(fees: seq<Ledger.Transaction>, line: string, period: Option<BillingPeriod.Period>)
    ensures LineFees(fees, line, period) ==
      Levy(fees, Summary.FindLabelled(line, Summary.FEES_LABEL), Summary.FindLabelled(line, Summary.INTEREST_LABEL), period)
  {
  }

  /** With a known period each charged capture appends its record. */
  lemma LevyRecords(fees: seq<Ledger.Transaction>, a: Option<string>, b: Option<string>, p: BillingPeriod.Period)
    requires a.Some? ==> Amount.IsAmountToken(a.value)
    requires b.Some? ==> Amount.IsAmountToken(b.value)
    ensures Levy(fees, a, b, Some(p)) ==
      Ok(fees + Summary.Levied(a, Ledger.MEMBER_FEE, |fees| + 1, p)
         + Summary.Levied(b, Ledger.INTEREST_CHARGE, |fees| + |Summary.Levied(a, Ledger.MEMBER_FEE, |fees| + 1, p)| + 1, p))
  {
    var fee := Summary.Levied(a, Ledger.MEMBER_FEE, |fees| + 1, p);
    AddFeeAppends(fees, a, Ledger.MEMBER_FEE, p);
    AddFeeAppends(fees + fee, b, Ledger.INTEREST_CHARGE, p);
    assert |fees + fee| + 1 == |fees| + |fee| + 1;
  }

  /** Without a period a line whose labels capture a fee or an interest
      charge makes the parse fail, and any other line adds nothing. */
  lemma LineFeesUnknown(fees: seq<Ledger.Transaction>, line: string)
    ensures LineFees(fees, line, None) ==
      if Summary.Charged(Summary.FindLabelled(line, Summary.FEES_LABEL))
         || Summary.Charged(Summary.FindLabelled(line, Summary.INTEREST_LABEL))
      then Err(BillingCycleUndetermined) else Ok(fees)
  {
    var a := Summary.FindLabelled(line, Summary.FEES_LABEL);
    var b := Summary.FindLabelled(line, Summary.INTEREST_LABEL);
    if !Summary.Charged(a) {
      assert LineFees(fees, line, None) == Summary.AddFee(fees, b, Ledger.INTEREST_CHARGE, None);
    }
  }

  /** With a known period a fee is recorded by appending its record. */
  lemma AddFeeAppends(fees: seq<Ledger.Transaction>, token: Option<string>, description: string,
                      p: BillingPeriod.Period)
    requires token.Some? ==> Amount.IsAmountToken(token.value)
    ensures Summary.AddFee(fees, token, description, Some(p)) == Ok(fees + Summary.Levied(token, description, |fees| + 1, p))
  {
    var r := Summary.AddFee(fees, token, description, Some(p));
    if token.Some? && token.value != Summary.ZERO {
      assert r.value == r.value[..|fees|] + [r.value[|fees|]];
    } else {
      assert fees + [] == fees;
    }
  }

  /** The state after a line: its summary and fees, and its records added to
      the charges or the payments by sign. */
  function Absorb(st: State, summary: Option<Summary.Totals>, fees: seq<Ledger.Transaction>,
                  records: seq<Ledger.Transaction>): State {
    State(st.period, summary, st.payments + Credits(records), st.transactions + Charges(records), fees)
  }

  lemma AbsorbKeepsInv(st: State, summary: Option<Summary.Totals>, fees: seq<Ledger.Transaction>,
                       records: seq<Ledger.Transaction>)
    requires Summary.Numbered(st.fees) ==> Summary.Numbered(fees)
    requires Summary.FeesDated(st.fees, st.period) ==> Summary.FeesDated(fees, st.period)
    requires forall k :: 0 <= k < |records| ==> Kept(records[k], st.period)
    ensures Inv(st) ==> Inv(Absorb(st, summary, fees, records))
  {
    if Inv(st) {
      KeptAppend(st.transactions, Charges(records), records, st.period, true);
      KeptAppend(st.payments, Credits(records), records, st.period, false);
    }
  }

  /** Appending records drawn from `rs` keeps every record kept. */
  lemma KeptAppend(s: seq<Ledger.Transaction>, xs: seq<Ledger.Transaction>, rs: seq<Ledger.Transaction>,
                   period: Option<BillingPeriod.Period>, charges: bool)
    requires forall k :: 0 <= k < |s| ==> Kept(s[k], period) && (s[k].amount >= 0 <==> charges)
    requires forall k :: 0 <= k < |xs| ==> xs[k] in rs && (xs[k].amount >= 0 <==> charges)
    requires forall k :: 0 <= k < |rs| ==> Kept(rs[k], period)
    ensures forall k :: 0 <= k < |s + xs| ==> Kept((s + xs)[k], period) && ((s + xs)[k].amount >= 0 <==> charges)
  {
    forall k | 0 <= k < |s + xs|
      ensures Kept((s + xs)[k], period) && ((s + xs)[k].amount >= 0 <==> charges)
    {
      if k >= |s| {
        assert (s + xs)[k] == xs[k - |s|];
      }
    }
  }

  /** A line of fewer than 80 characters that prints a transaction, with no
      line after it, yields exactly that transaction: the left column is the
      whole line, already holding its amount, and the right one is empty. */
  lemma ColumnRecordsPrinted(t: Ledger.Transaction, p: BillingPeriod.Period, lead: nat, gap: nat, pad: nat, trail: nat)
    requires Ledger.Recorded(t)
    requires t.date.year == BillingPeriod.TransactionYear(BillingPeriod.MonthName(t.date.month), p)
    requires gap >= 1 && pad >= 1
    requires |TransactionLine.Render(Ledger.FieldsOf(t), lead, gap, pad, trail)| < 80
    ensures ColumnRecords(TransactionLine.Render(Ledger.FieldsOf(t), lead, gap, pad, trail), None, Some(p)) == Ok([t])
  {
    var line := TransactionLine.Render(Ledger.FieldsOf(t), lead, gap, pad, trail);
    Ledger.ParsePrintedTransaction(t, p, lead, gap, pad, trail);
    ShortLastLine(line, Some(p), t);
  }

  /** A line of fewer than 80 characters with no line after it is all left
      column, so it yields the one record that column reads as. */
  lemma ShortLastLine(line: string, period: Option<BillingPeriod.Period>, t: Ledger.Transaction)
    requires |line| < 80 && Ledger.ParseTransaction(line, period) == Ok(Some(t))
    ensures ColumnRecords(line, None, period) == Ok([t])
  {
    Columns.LibraryColumnsPartition(line);
    Columns.LibraryColumnsPartition([]);
    NothingIsNotAmount();
    assert Columns.Repaired(line, None, Columns.LEFT) == line;
    assert Columns.Repaired(line, None, Columns.RIGHT) == [];
    EmptyColumnNoRecord(period);
    CompactFirst(t);
  }

  /** A line printing a transaction in its left column, padded to 79
      characters, a separator, and a second transaction from index 80 on,
      with no line after it, yields the left transaction and then the right
      one: the right column is where payments are printed. */
  lemma TwoColumnsPrinted(t: Ledger.Transaction, u: Ledger.Transaction, p: BillingPeriod.Period,
                          lead: nat, gap: nat, pad: nat, trail: nat,
                          lead': nat, gap': nat, pad': nat, trail': nat) returns (line: string)
    requires Ledger.Recorded(t) && Ledger.Recorded(u)
    requires t.date.year == BillingPeriod.TransactionYear(BillingPeriod.MonthName(t.date.month), p)
    requires u.date.year == BillingPeriod.TransactionYear(BillingPeriod.MonthName(u.date.month), p)
    requires gap >= 1 && pad >= 1 && gap' >= 1 && pad' >= 1
    requires |TransactionLine.Render(Ledger.FieldsOf(t), lead, gap, pad, trail)| == 79
    ensures line == TransactionLine.Render(Ledger.FieldsOf(t), lead, gap, pad, trail) + " "
                    + TransactionLine.Render(Ledger.FieldsOf(u), lead', gap', pad', trail')
    ensures ColumnRecords(line, None, Some(p)) == Ok([t, u])
  {
    var left := TransactionLine.Render(Ledger.FieldsOf(t), lead, gap, pad, trail);
    var right := TransactionLine.Render(Ledger.FieldsOf(u), lead', gap', pad', trail');
    line := left + " " + right;
    Ledger.ParsePrintedTransaction(t, p, lead, gap, pad, trail);
    Ledger.ParsePrintedTransaction(u, p, lead', gap', pad', trail');
    TwoColumns(left, right, Some(p), t, u);
  }

  /** A 79-character left part that reads as `t`, a separator and a right
      part that reads as `u`, with no line after them, yield `t` then `u`. */
  lemma TwoColumns(left: string, right: string, period: Option<BillingPeriod.Period>,
                   t: Ledger.Transaction, u: Ledger.Transaction)
    requires |left| == 79
    requires Ledger.ParseTransaction(left, period) == Ok(Some(t))
    requires Ledger.ParseTransaction(right, period) == Ok(Some(u))
    ensures ColumnRecords(left + " " + right, None, period) == Ok([t, u])
  {
    SplitColumns(left, right);
    ColumnsHold(left + " " + right, None, period, Some(t), Some(u));
    ListedBoth(t, u);
  }

  /** A line whose repaired columns read as `x` and `y` yields what they
      hold, left first. */
  lemma ColumnsHold(line: string, next: Option<string>, period: Option<BillingPeriod.Period>,
                    x: Option<Ledger.Transaction>, y: Option<Ledger.Transaction>)
    requires Ledger.ParseTransaction(Columns.Repaired(line, next, Columns.LEFT), period) == Ok(x)
    requires Ledger.ParseTransaction(Columns.Repaired(line, next, Columns.RIGHT), period) == Ok(y)
    ensures ColumnRecords(line, next, period) == Ok(Listed(x) + Listed(y))
  {
    ColumnsRead(line, next, period);
  }

  /** The two columns of a line built from a 79-character left part, one
      separator and a right part, with no line after it, are those parts. */
  lemma SplitColumns(left: string, right: string)
    requires |left| == 79
    ensures Columns.Repaired(left + " " + right, None, Columns.LEFT) == left
    ensures Columns.Repaired(left + " " + right, None, Columns.RIGHT) == right
  {
    var line := left + " " + right;
    assert line[..79] == left && line[80..] == right;
    Columns.LibraryColumnsPartition([]);
    NothingIsNotAmount();
  }

  /** A transaction whose amount was pushed onto the next line, as the only
      text of that line's left column, is read in full from the repaired left
      column, and the empty right columns add nothing. */
  lemma WrappedAmountLine(t: Ledger.Transaction, p: BillingPeriod.Period, lead: nat, gap: nat, a: nat, b: nat)
    returns (line: string, next: string)
    requires Ledger.Recorded(t)
    requires t.date.year == BillingPeriod.TransactionYear(BillingPeriod.MonthName(t.date.month), p)
    requires gap >= 1
    requires !Amount.HasAmount(Spaces(lead) + Ledger.FieldsOf(t).id + Spaces(gap) + (Ledger.FieldsOf(t).day + " " + Ledger.FieldsOf(t).month + " " + t.description))
    requires |Spaces(lead) + Ledger.FieldsOf(t).id + Spaces(gap) + (Ledger.FieldsOf(t).day + " " + Ledger.FieldsOf(t).month + " " + t.description)| < 80
    requires a + |t.amountText| + b < 80
    ensures line == Spaces(lead) + Ledger.FieldsOf(t).id + Spaces(gap) + (Ledger.FieldsOf(t).day + " " + Ledger.FieldsOf(t).month + " " + t.description)
    ensures next == Spaces(a) + t.amountText + Spaces(b)
    ensures ColumnRecords(line, Some(next), Some(p)) == Ok([t])
  {
    var f := Ledger.FieldsOf(t);
    line := Spaces(lead) + f.id + Spaces(gap) + (f.day + " " + f.month + " " + f.desc);
    next := Spaces(a) + t.amountText + Spaces(b);
    WrappedColumns(line, next);
    Columns.RepairWrapped(line, a, f.amount, b);
    Columns.RenderWrapped(f, lead, gap);
    Ledger.ParsePrintedTransaction(t, p, lead, gap, 1, 0);
    EmptyColumnNoRecord(Some(p));
    ColumnsHold(line, Some(next), Some(p), Some(t), None);
    assert Listed(Some(t)) + Listed(None) == [t];
  }

  /** Of two short lines, each is all left column. */
  lemma WrappedColumns(line: string, next: string)
    requires |line| < 80 && |next| < 80
    ensures Columns.Repaired(line, Some(next), Columns.LEFT) == Columns.Repair(line, next)
    ensures Columns.Repaired(line, Some(next), Columns.RIGHT) == []
  {
    Columns.LibraryColumnsPartition(line);
    Columns.LibraryColumnsPartition(next);
    NothingIsNotAmount();
  }

  lemma CompactFirst(t: Ledger.Transaction)
    ensures Compact([Some(t), None]) == [t]
  {
    var cols: seq<Option<Ledger.Transaction>> := [Some(t), None];
    assert cols[1..][1..] == [];
  }

  /** With a known period, processing a printed transaction line of fewer
      than 80 characters, last on its page, adds that transaction to the
      charges when its amount is not negative and to the payments otherwise,
      and nothing else to either. */
  lemma ProcessLinePrinted(st: State, t: Ledger.Transaction, p: BillingPeriod.Period,
                           lead: nat, gap: nat, pad: nat, trail: nat) returns (line: string)
    requires st.period == Some(p)
    requires Ledger.Recorded(t)
    requires t.date.year == BillingPeriod.TransactionYear(BillingPeriod.MonthName(t.date.month), p)
    requires gap >= 1 && pad >= 1
    requires |TransactionLine.Render(Ledger.FieldsOf(t), lead, gap, pad, trail)| < 80
    ensures line == TransactionLine.Render(Ledger.FieldsOf(t), lead, gap, pad, trail)
    ensures ProcessLine(st, line, None).Ok?
    ensures ProcessLine(st, line, None).value.transactions == st.transactions + (if t.amount >= 0 then [t] else [])
    ensures ProcessLine(st, line, None).value.payments == st.payments + (if t.amount < 0 then [t] else [])
  {
    line := TransactionLine.Render(Ledger.FieldsOf(t), lead, gap, pad, trail);
    ColumnRecordsPrinted(t, p, lead, gap, pad, trail);
    OneRecord(st, line, None, t);
  }

  /** A line whose columns hold one record, read with a known period. */
  lemma OneRecord(st: State, line: string, next: Option<string>, t: Ledger.Transaction)
    requires st.period.Some? && ColumnRecords(line, next, st.period) == Ok([t])
    ensures ProcessLine(st, line, next).Ok?
    ensures ProcessLine(st, line, next).value.transactions == st.transactions + (if t.amount >= 0 then [t] else [])
    ensures ProcessLine(st, line, next).value.payments == st.payments + (if t.amount < 0 then [t] else [])
  {
    assert LineFees(st.fees, line, st.period).Ok?;
    assert [t][1..] == [];
    assert Charges([t]) == if t.amount >= 0 then [t] else [];
    assert Credits([t]) == if t.amount < 0 then [t] else [];
  }

  /** An empty column holds no amount. */
  lemma NothingIsNotAmount()
    ensures !Amount.IsAmountOnly([])
  {
    if Amount.IsAmountOnly([]) {
      Amount.TokenShape(TrimSpaces([]));
    }
  }

  /** An empty column is no transaction line. */
  lemma EmptyColumnNoRecord(period: Option<BillingPeriod.Period>)
    ensures Ledger.ParseTransaction([], period) == Ok(None)
  {
    TransactionLine.ShapeSound([], false);
  }

  /** One turn of the line loop: the current line and the next non-blank one,
      if the page has any. */
  datatype Step = Step(line: string, next: Option<string>)

  /** `enum.next until (enum.peek rescue nil) != ''`: the lines from the first
      one that is not empty. */
  function DropBlank(lines: seq<string>): (r: seq<string>)
    ensures |r| <= |lines| && r == lines[|lines| - |r|..]
    ensures forall k :: 0 <= k < |lines| - |r| ==> lines[k] == []
    ensures r == [] || r[0] != []
  {
    if |lines| == 0 || lines[0] != [] then lines else DropBlank(lines[1..])
  }

  /** The turns of the loop of lines 135-141 over a page's lines: every line
      but an empty one that follows another line is a current line, and its
      next line is the following non-empty one. */
  function Schedule(lines: seq<string>): (r: seq<Step>)
    ensures |r| <= |lines|
    ensures forall k :: 0 < k < |r| ==> r[k].line != []
    decreases |lines|
  {
    if |lines| == 0 then []
    else
      var rest := DropBlank(lines[1..]);
      [Step(lines[0], if |rest| == 0 then None else Some(rest[0]))] + Schedule(rest)
  }

  /** The lines that are not empty, in order. */
  function NonBlank(lines: seq<string>): seq<string> {
    if |lines| == 0 then []
    else if lines[0] == [] then NonBlank(lines[1..])
    else [lines[0]] + NonBlank(lines[1..])
  }

  function Currents(steps: seq<Step>): seq<string> {
    if |steps| == 0 then [] else [steps[0].line] + Currents(steps[1..])
  }

  /** Every line is visited in order, the empty ones after the first line
      skipped. */
  lemma {:induction false} ScheduleVisits(lines: seq<string>)
    requires lines != []
    ensures Currents(Schedule(lines)) == [lines[0]] + NonBlank(lines[1..])
    decreases |lines|
  {
    var rest := DropBlank(lines[1..]);
    DropBlankNonBlank(lines[1..]);
    assert Currents(Schedule(lines)) == [lines[0]] + Currents(Schedule(rest));
    if |rest| > 0 {
      ScheduleVisits(rest);
      assert NonBlank(rest) == [rest[0]] + NonBlank(rest[1..]);
    }
  }

  /** Each turn's next line is the following turn's line; the last turn has
      none. */
  predicate Linked(r: seq<Step>) {
    forall k :: 0 <= k < |r| ==> r[k].next == Following(r, k)
  }

  /** The line of the turn after turn `k`, if there is one. */
  function Following(r: seq<Step>, k: nat): Option<string>
    requires k < |r|
  {
    if k + 1 < |r| then Some(r[k + 1].line) else None
  }

  lemma {:induction false} ScheduleNext(lines: seq<string>)
    ensures Linked(Schedule(lines))
    decreases |lines|
  {
    if |lines| > 0 {
      var rest := DropBlank(lines[1..]);
      ScheduleNext(rest);
      ScheduleStarts(rest);
      LinkedCons(Schedule(lines)[0], Schedule(rest));
      assert Schedule(lines) == [Schedule(lines)[0]] + Schedule(rest);
    }
  }

  /** The first turn of a non-empty page is its first line. */
  lemma ScheduleStarts(lines: seq<string>)
    ensures |Schedule(lines)| == 0 <==> |lines| == 0
    ensures |lines| > 0 ==> Schedule(lines)[0].line == lines[0]
  {
  }

  lemma LinkedCons(s: Step, r: seq<Step>)
    requires Linked(r)
    requires s.next == if |r| == 0 then None else Some(r[0].line)
    ensures Linked([s] + r)
  {
    var r' := [s] + r;
    forall k | 0 <= k < |r'|
      ensures r'[k].next == Following(r', k)
    {
      if k > 0 {
        assert r'[k] == r[k - 1];
        assert r[k - 1].next == Following(r, k - 1);
        assert k + 1 < |r'| ==> r'[k + 1] == r[k];
      } else {
        assert |r| > 0 ==> r'[1] == r[0];
      }
    }
  }

  /** Skipping empty lines loses none of the others. */
  lemma {:induction false} DropBlankNonBlank(lines: seq<string>)
    ensures NonBlank(DropBlank(lines)) == NonBlank(lines)
    decreases |lines|
  {
    if |lines| > 0 && lines[0] == [] {
      DropBlankNonBlank(lines[1..]);
    }
  }

  /** The line loop over one page's turns. */
  function RunLines(st: State, steps: seq<Step>): (r: Result<State>)
    ensures r.Ok? ==> r.value.period == st.period && Grows(st, r.value)
    ensures r.Err? ==> r.error.BillingCycleUndetermined? || r.error.InvalidDate?
    ensures r.Ok? && st.summary.Some? ==> r.value.summary == st.summary
    ensures r.Ok? && Inv(st) ==> Inv(r.value)
    ensures r.Err? ==> (st.period.None? <==> r.error == BillingCycleUndetermined)
    decreases |steps|
  {
    if |steps| == 0 then Ok(st)
    else
      var st' :- ProcessLine(st, steps[0].line, steps[0].next);
      RunLines(st', steps[1..])
  }

  /** The records the columns of the scheduled lines hold under `period`, line
      by line, left column before right; a line whose columns fail adds none. */
  function StepsRecords(steps: seq<Step>, period: Option<BillingPeriod.Period>): seq<Ledger.Transaction>
    decreases |steps|
  {
    if |steps| == 0 then []
    else
      var c := ColumnRecords(steps[0].line, steps[0].next, period);
      (if c.Ok? then c.value else []) + StepsRecords(steps[1..], period)
  }

  /** The line loop adds to the charges exactly the non-negative records of
      its lines' columns and to the payments exactly the negative ones, each
      in line order. */
  lemma {:induction false} RunLinesRecords(st: State, steps: seq<Step>)
    requires RunLines(st, steps).Ok?
    ensures RunLines(st, steps).value.transactions == st.transactions + Charges(StepsRecords(steps, st.period))
    ensures RunLines(st, steps).value.payments == st.payments + Credits(StepsRecords(steps, st.period))
    decreases |steps|
  {
    if |steps| > 0 {
      var c := ColumnRecords(steps[0].line, steps[0].next, st.period);
      var st' := ProcessLine(st, steps[0].line, steps[0].next).value;
      assert RunLines(st, steps) == RunLines(st', steps[1..]);
      assert st'.period == st.period;
      RunLinesRecords(st', steps[1..]);
      var rest := StepsRecords(steps[1..], st.period);
      assert StepsRecords(steps, st.period) == c.value + rest;
      AddsRecords(st, st', RunLines(st, steps).value, c.value, rest);
    }
  }

  /** The fees after the scheduled lines under `period`: each line's fee and
      interest charge in turn, numbered on; a line whose fees fail adds none. */
  function StepsFees(fees: seq<Ledger.Transaction>, steps: seq<Step>, period: Option<BillingPeriod.Period>)
    : seq<Ledger.Transaction>
    decreases |steps|
  {
    if |steps| == 0 then fees
    else
      var f := LineFees(fees, steps[0].line, period);
      StepsFees(if f.Ok? then f.value else fees, steps[1..], period)
  }

  /** The line loop records the fees its lines label, line by line. */
  lemma {:induction false} RunLinesFees(st: State, steps: seq<Step>)
    requires RunLines(st, steps).Ok?
    ensures RunLines(st, steps).value.fees == StepsFees(st.fees, steps, st.period)
    decreases |steps|
  {
    if |steps| > 0 {
      var st' := ProcessLine(st, steps[0].line, steps[0].next).value;
      assert RunLines(st, steps) == RunLines(st', steps[1..]);
      RunLinesFees(st', steps[1..]);
    }
  }

  /** A line processed before any period is known labels no fee, whatever
      period it is later read under. */
  lemma LineFeesSilent(fees: seq<Ledger.Transaction>, line: string, q: Option<BillingPeriod.Period>)
    requires LineFees(fees, line, None).Ok?
    ensures LineFees(fees, line, q) == Ok(fees)
  {
    LineFeesUnknown(fees, line);
    if q.Some? {
      var a := Summary.FindLabelled(line, Summary.FEES_LABEL);
      var b := Summary.FindLabelled(line, Summary.INTEREST_LABEL);
      LineFeesRecords(fees, line, q.value, a, b);
      assert fees + [] + [] == fees;
    }
  }

  /** So lines run before any period is known record no fee under any
      period. */
  lemma {:induction false} RunLinesNoFees(st: State, steps: seq<Step>, fees: seq<Ledger.Transaction>,
                                          q: Option<BillingPeriod.Period>)
    requires st.period.None? && RunLines(st, steps).Ok?
    ensures StepsFees(fees, steps, q) == fees
    decreases |steps|
  {
    if |steps| > 0 {
      var st' := ProcessLine(st, steps[0].line, steps[0].next).value;
      LineFeesSilent(st.fees, steps[0].line, None);
      LineFeesUnknown(st.fees, steps[0].line);
      LineFeesUnknown(fees, steps[0].line);
      LineFeesSilent(fees, steps[0].line, q);
      RunLinesNoFees(st', steps[1..], fees, q);
    }
  }

  /** Records added in two runs are the records of both runs added at once. */
  lemma AddsRecords(before: State, mid: State, after: State, first: seq<Ledger.Transaction>,
                    rest: seq<Ledger.Transaction>)
    requires mid.transactions == before.transactions + Charges(first)
    requires mid.payments == before.payments + Credits(first)
    requires after.transactions == mid.transactions + Charges(rest)
    requires after.payments == mid.payments + Credits(rest)
    ensures after.transactions == before.transactions + Charges(first + rest)
    ensures after.payments == before.payments + Credits(first + rest)
  {
    SplitAppend(first, rest);
    Regroup(before.transactions, Charges(first), Charges(rest));
    Regroup(before.payments, Credits(first), Credits(rest));
  }

  lemma Regroup<T>(s: seq<T>, a: seq<T>, b: seq<T>)
    ensures s + a + b == s + (a + b)
  {
  }

  /** A line processed before any period is known holds no record in either
      column, whatever period it is later read under: every transaction line
      in it is the member fee. */
  lemma ColumnsSilent(line: string, next: Option<string>, q: Option<BillingPeriod.Period>)
    requires ColumnRecords(line, next, None).Ok?
    ensures ColumnRecords(line, next, q) == Ok([])
  {
    var left := Columns.Repaired(line, next, Columns.LEFT);
    var right := Columns.Repaired(line, next, Columns.RIGHT);
    Ledger.ParseTransactionNone(left, None);
    Ledger.ParseTransactionNone(left, q);
    Ledger.ParseTransactionNone(right, None);
    Ledger.ParseTransactionNone(right, q);
    var nothing: seq<Option<Ledger.Transaction>> := [None, None];
    assert Compact(nothing) == [] by {
      assert nothing[1..][1..] == [];
    }
  }

  /** So lines run before any period is known yield no records under any
      period. */
  lemma {:induction false} RunLinesSilent(st: State, steps: seq<Step>, q: Option<BillingPeriod.Period>)
    requires st.period.None? && RunLines(st, steps).Ok?
    ensures StepsRecords(steps, q) == []
    decreases |steps|
  {
    if |steps| > 0 {
      ColumnsSilent(steps[0].line, steps[0].next, q);
      var st' := ProcessLine(st, steps[0].line, steps[0].next).value;
      RunLinesSilent(st', steps[1..], q);
    }
  }

  /** Starting without a summary, a page that yields no summary has no line
      with exactly five amounts. */
  lemma {:induction false} PageWithoutSummary(st: State, steps: seq<Step>)
    requires st.summary.None? && RunLines(st, steps).Ok?
    ensures RunLines(st, steps).value.summary.None? <==>
      forall k :: 0 <= k < |steps| ==> |Amount.ScanAmounts(steps[k].line)| != 5
    decreases |steps|
  {
    if |steps| > 0 {
      var st' := ProcessLine(st, steps[0].line, steps[0].next).value;
      if st'.summary.None? {
        PageWithoutSummary(st', steps[1..]);
        forall k | 1 <= k < |steps|
          ensures steps[k] == steps[1..][k - 1]
        {
        }
      }
    }
  }

  /** Starting without a summary, the summary a page yields is the one read
      from its first line with exactly five amounts. */
  lemma {:induction false} SummaryFromFirstFive(st: State, steps: seq<Step>) returns (j: nat)
    requires st.summary.None? && RunLines(st, steps).Ok? && RunLines(st, steps).value.summary.Some?
    ensures j < |steps| && |Amount.ScanAmounts(steps[j].line)| == 5
    ensures forall i :: 0 <= i < j ==> |Amount.ScanAmounts(steps[i].line)| != 5
    ensures RunLines(st, steps).value.summary == Summary.CaptureSummary(steps[j].line, None)
    decreases |steps|
  {
    var st' := ProcessLine(st, steps[0].line, steps[0].next).value;
    if st'.summary.Some? {
      j := 0;
    } else {
      var j' := SummaryFromFirstFive(st', steps[1..]);
      j := j' + 1;
      forall i | 1 <= i < j
        ensures steps[i] == steps[1..][i - 1]
      {
      }
    }
  }

  /** One page as the parse sees it: the texts of its text-drawing calls, in
      drawing order, and its text split into lines. */
  datatype Page = Page(calls: seq<seq<string>>, lines: seq<string>)

  /** One iteration of lines 106-141: while no billing period is known, the
      page's walk decides it (and may leave it unknown); then every line is
      processed. */
  function ParsePage(st: State, page: Page): (r: Result<State>)
    ensures r.Ok? && st.period.Some? ==> r.value.period == st.period
    ensures r.Ok? && st.period.None? ==>
      BillingPeriod.Walk(page.calls, None).Ok? && r.value.period == BillingPeriod.Walk(page.calls, None).value
    ensures st.period.None? && BillingPeriod.Walk(page.calls, None).Err? ==>
      r == Err(BillingPeriod.Walk(page.calls, None).error)
    ensures r.Ok? ==> Grows(st, r.value)
    ensures r.Ok? && st.summary.Some? ==> r.value.summary == st.summary
    ensures r.Ok? && Inv(st) ==> Inv(r.value)
  {
    var period :- if st.period.None? then BillingPeriod.Walk(page.calls, None) else Ok(st.period);
    var st' := st.(period := period);
    InvWithPeriod(st, period);
    RunLines(st', Schedule(page.lines))
  }

  /** A page adds the records of its scheduled lines, read under the period
      the page ends with; a page that ends without one adds none under any
      period. */
  lemma ParsePageRecords(st: State, page: Page, q: Option<BillingPeriod.Period>)
    requires ParsePage(st, page).Ok?
    ensures ParsePage(st, page).value.transactions ==
      st.transactions + Charges(StepsRecords(Schedule(page.lines), ParsePage(st, page).value.period))
    ensures ParsePage(st, page).value.payments ==
      st.payments + Credits(StepsRecords(Schedule(page.lines), ParsePage(st, page).value.period))
    ensures ParsePage(st, page).value.period.None? ==> StepsRecords(Schedule(page.lines), q) == []
  {
    var period := if st.period.None? then BillingPeriod.Walk(page.calls, None).value else st.period;
    var st' := st.(period := period);
    assert ParsePage(st, page) == RunLines(st', Schedule(page.lines));
    RunLinesRecords(st', Schedule(page.lines));
    if period.None? {
      RunLinesSilent(st', Schedule(page.lines), q);
    }
  }

  /** A page records the fees its scheduled lines label, read under the
      period the page ends with; a page that ends without one labels none
      under any period. */
  lemma ParsePageFees(st: State, page: Page, fees: seq<Ledger.Transaction>, q: Option<BillingPeriod.Period>)
    requires ParsePage(st, page).Ok?
    ensures ParsePage(st, page).value.fees == StepsFees(st.fees, Schedule(page.lines), ParsePage(st, page).value.period)
    ensures ParsePage(st, page).value.period.None? ==> StepsFees(fees, Schedule(page.lines), q) == fees
  {
    var period := if st.period.None? then BillingPeriod.Walk(page.calls, None).value else st.period;
    var st' := st.(period := period);
    assert ParsePage(st, page) == RunLines(st', Schedule(page.lines));
    RunLinesFees(st', Schedule(page.lines));
    if period.None? {
      RunLinesNoFees(st', Schedule(page.lines), fees, q);
    }
  }

  /** Before any period is known nothing has been recorded, so any period
      may be adopted. */
  lemma InvWithPeriod(st: State, period: Option<BillingPeriod.Period>)
    requires st.period.Some? ==> period == st.period
    ensures Inv(st) ==> Inv(st.(period := period))
  {
    if st.period.None? && Inv(st) {
      NothingKeptWithout(st.transactions, st.period, true);
      NothingKeptWithout(st.payments, st.period, false);
      NoFeesWithout(st.fees, st.period);
    }
  }

  /** Records are only kept once a period is known. */
  lemma NothingKeptWithout(s: seq<Ledger.Transaction>, period: Option<BillingPeriod.Period>, charges: bool)
    requires forall k :: 0 <= k < |s| ==> Kept(s[k], period) && (s[k].amount >= 0 <==> charges)
    ensures period.None? ==> s == []
  {
    if |s| > 0 {
      assert Kept(s[0], period);
    }
  }

  /** Fees are only recorded once a period is known. */
  lemma NoFeesWithout(fees: seq<Ledger.Transaction>, period: Option<BillingPeriod.Period>)
    requires Summary.FeesDated(fees, period)
    ensures period.None? ==> fees == []
  {
    if |fees| > 0 {
      var first := fees[0];
      assert period.Some?;
    }
  }

  /** `parse_from_pdf` over all pages. */
  function ParsePages(st: State, pages: seq<Page>): (r: Result<State>)
    ensures r.Ok? && st.period.Some? ==> r.value.period == st.period
    ensures r.Ok? ==> Grows(st, r.value)
    ensures r.Ok? && st.summary.Some? ==> r.value.summary == st.summary
    ensures r.Ok? && Inv(st) ==> Inv(r.value)
    decreases |pages|
  {
    if |pages| == 0 then Ok(st)
    else
      var st' :- ParsePage(st, pages[0]);
      ParsePages(st', pages[1..])
  }

  /** The period the page loop settles on, read from the pages' walks alone:
      that of the first page whose walk decodes a header, none when no page's
      walk does, and the error of the first walk that fails before either. */
  function FirstPeriod(pages: seq<Page>): (r: Result<Option<BillingPeriod.Period>>)
    ensures r.Ok? && r.value.None? ==>
      forall k :: 0 <= k < |pages| ==> BillingPeriod.Walk(pages[k].calls, None) == Ok(None)
    ensures r.Err? ==> exists k :: 0 <= k < |pages| && BillingPeriod.Walk(pages[k].calls, None) == Err(r.error)
    decreases |pages|
  {
    if |pages| == 0 then Ok(None)
    else
      var found :- BillingPeriod.Walk(pages[0].calls, None);
      if found.Some? then Ok(found)
      else
        var r := FirstPeriod(pages[1..]);
        assert forall k :: 1 <= k < |pages| ==> pages[k] == pages[1..][k - 1];
        r
  }

  /** Starting without a period, the pages' walks alone decide it: a parse
      that succeeds ends with the period of the first page whose walk decodes
      a header, and a walk that fails before any does fails the parse. */
  lemma {:induction false} ParsePagesPeriod(st: State, pages: seq<Page>)
    requires st.period.None?
    ensures ParsePages(st, pages).Ok? ==>
      FirstPeriod(pages).Ok? && ParsePages(st, pages).value.period == FirstPeriod(pages).value
    ensures FirstPeriod(pages).Err? ==> ParsePages(st, pages).Err?
    decreases |pages|
  {
    if |pages| > 0 && ParsePage(st, pages[0]).Ok? {
      var st' := ParsePage(st, pages[0]).value;
      assert ParsePages(st, pages) == ParsePages(st', pages[1..]);
      if st'.period.None? {
        ParsePagesPeriod(st', pages[1..]);
      }
    }
  }

  /** So a parsed statement's period is that of the first page whose walk
      decodes a header. */
  lemma ParseStatementPeriod(pages: seq<Page>)
    ensures ParseStatement(pages).Ok? ==>
      FirstPeriod(pages).Ok? && ParseStatement(pages).value.period == FirstPeriod(pages).value
    ensures FirstPeriod(pages).Err? ==> ParseStatement(pages).Err?
  {
    ParsePagesPeriod(INITIAL, pages);
  }

  /** The records of the scheduled lines of every page, page by page, under
      `period`. */
  function PagesRecords(pages: seq<Page>, period: Option<BillingPeriod.Period>): seq<Ledger.Transaction>
    decreases |pages|
  {
    if |pages| == 0 then [] else StepsRecords(Schedule(pages[0].lines), period) + PagesRecords(pages[1..], period)
  }

  /** All pages add the records of all their lines, read under the period the
      parse ends with: pages parsed before it was known hold none. */
  lemma {:induction false} ParsePagesRecords(st: State, pages: seq<Page>)
    requires ParsePages(st, pages).Ok?
    ensures ParsePages(st, pages).value.transactions ==
      st.transactions + Charges(PagesRecords(pages, ParsePages(st, pages).value.period))
    ensures ParsePages(st, pages).value.payments ==
      st.payments + Credits(PagesRecords(pages, ParsePages(st, pages).value.period))
    decreases |pages|
  {
    if |pages| > 0 {
      var st' := ParsePage(st, pages[0]).value;
      var r := ParsePages(st', pages[1..]).value;
      assert ParsePages(st, pages) == ParsePages(st', pages[1..]);
      ParsePagesRecords(st', pages[1..]);
      ParsePageRecords(st, pages[0], r.period);
      var first := StepsRecords(Schedule(pages[0].lines), r.period);
      if st'.period.Some? {
        assert r.period == st'.period;
      } else {
        ParsePageRecords(st, pages[0], None);
        assert first == [] == StepsRecords(Schedule(pages[0].lines), st'.period);
      }
      assert PagesRecords(pages, r.period) == first + PagesRecords(pages[1..], r.period);
      AddsRecords(st, st', r, first, PagesRecords(pages[1..], r.period));
    } else {
      assert st.transactions + [] == st.transactions && st.payments + [] == st.payments;
    }
  }

  /** The fees after every page, page by page, under `period`. */
  function PagesFees(fees: seq<Ledger.Transaction>, pages: seq<Page>, period: Option<BillingPeriod.Period>)
    : seq<Ledger.Transaction>
    decreases |pages|
  {
    if |pages| == 0 then fees else PagesFees(StepsFees(fees, Schedule(pages[0].lines), period), pages[1..], period)
  }

  /** All pages record the fees all their lines label, read under the period
      the parse ends with. */
  lemma {:induction false} ParsePagesFees(st: State, pages: seq<Page>)
    requires ParsePages(st, pages).Ok?
    ensures ParsePages(st, pages).value.fees == PagesFees(st.fees, pages, ParsePages(st, pages).value.period)
    decreases |pages|
  {
    if |pages| > 0 {
      var st' := ParsePage(st, pages[0]).value;
      var r := ParsePages(st', pages[1..]).value;
      assert ParsePages(st, pages) == ParsePages(st', pages[1..]);
      ParsePagesFees(st', pages[1..]);
      ParsePageFees(st, pages[0], st.fees, r.period);
      if st'.period.Some? {
        assert r.period == st'.period;
      } else {
        ParsePageFees(st, pages[0], st.fees, None);
      }
      assert StepsFees(st.fees, Schedule(pages[0].lines), r.period) == st'.fees;
    }
  }

  /** `check_total`: the computed sum must equal the summary's figure; a
      figure never read makes the comparison itself fail. */
  function CheckTotal(category: Category, expected: Option<int>, actual: int): (r: Result<()>)
    ensures r.Ok? <==> expected == Some(actual)
    ensures r.Err? && expected.None? ==> r.error == SummaryMissing
    ensures r.Err? && expected.Some? ==> r.error == TotalMismatch(category, actual, expected.value)
  {
    if expected.None? then Err(SummaryMissing)
    else if actual == expected.value then Ok(())
    else Err(TotalMismatch(category, actual, expected.value))
  }

  /** The summary figure a category is reconciled against. */
  function Expected(summary: Option<Summary.Totals>, category: Category): Option<int> {
    match summary
    case None => None
    case Some(s) =>
      Some(match category
           case Payments => s.payments
           case Transactions => s.transactions
           case Fees => s.fees)
  }

  /** The parsed statement. */
  datatype Parsed = Parsed(
    period: Option<BillingPeriod.Period>,
    totals: Summary.Totals,
    payments: seq<Ledger.Transaction>,
    transactions: seq<Ledger.Transaction>,
    fees: seq<Ledger.Transaction>)

  /** Lines 74-85: payments, transactions and fees, in that order, are sorted
      by id and their sums checked against the summary. The first list whose
      sum is off decides the failure. */
  function Reconcile(st: State): (r: Result<Parsed>)
    ensures r.Ok? <==> (&& st.summary.Some?
                        && Ledger.Sum(st.payments) == st.summary.value.payments
                        && Ledger.Sum(st.transactions) == st.summary.value.transactions
                        && Ledger.Sum(st.fees) == st.summary.value.fees)
    ensures st.summary.None? ==> r == Err(SummaryMissing)
    ensures r.Err? && st.summary.Some? ==> r.error.TotalMismatch?
    ensures r.Err? && st.summary.Some? ==>
      (r.error.category == Payments <==> Ledger.Sum(st.payments) != st.summary.value.payments)
    ensures r.Err? && st.summary.Some? && Ledger.Sum(st.payments) == st.summary.value.payments ==>
      (r.error.category == Transactions <==> Ledger.Sum(st.transactions) != st.summary.value.transactions)
    ensures r.Ok? ==> r.value.period == st.period && r.value.totals == st.summary.value
    ensures r.Ok? ==> && Ledger.SortedById(r.value.payments) && multiset(r.value.payments) == multiset(st.payments)
                      && Ledger.SortedById(r.value.transactions) && multiset(r.value.transactions) == multiset(st.transactions)
                      && Ledger.SortedById(r.value.fees) && multiset(r.value.fees) == multiset(st.fees)
    ensures r.Ok? && Inv(st) ==> Valid(r.value)
  {
    Ledger.SortKeepsSum(st.payments);
    Ledger.SortKeepsSum(st.transactions);
    Ledger.SortKeepsSum(st.fees);
    var payments := Ledger.SortById(st.payments);
    var u1 :- CheckTotal(Payments, Expected(st.summary, Payments), Ledger.Sum(payments));
    var transactions := Ledger.SortById(st.transactions);
    var u2 :- CheckTotal(Transactions, Expected(st.summary, Transactions), Ledger.Sum(transactions));
    var fees := Ledger.SortById(st.fees);
    var u3 :- CheckTotal(Fees, Expected(st.summary, Fees), Ledger.Sum(fees));
    var parsed := Parsed(st.period, st.summary.value, payments, transactions, fees);
    SortedValid(st, parsed);
    Ok(parsed)
  }

  /** The whole parse: `CapitalOneStatement.new` on a statement's pages. */
  function ParseStatement(pages: seq<Page>): (r: Result<Parsed>)
    ensures r.Ok? ==> Valid(r.value)
  {
    InitialInv();
    var st :- ParsePages(INITIAL, pages);
    Reconcile(st)
  }

  /** A parsed statement's charges are, in some order, exactly the
      non-negative records of the columns of all its lines, and its payments
      exactly the negative ones. */
  lemma ParseStatementRecords(pages: seq<Page>)
    requires ParseStatement(pages).Ok?
    ensures multiset(ParseStatement(pages).value.transactions) ==
      multiset(Charges(PagesRecords(pages, ParseStatement(pages).value.period)))
    ensures multiset(ParseStatement(pages).value.payments) ==
      multiset(Credits(PagesRecords(pages, ParseStatement(pages).value.period)))
  {
    var st := ParsePages(INITIAL, pages).value;
    assert ParseStatement(pages) == Reconcile(st);
    ParsePagesRecords(INITIAL, pages);
    assert st.transactions == Charges(PagesRecords(pages, st.period));
    assert st.payments == Credits(PagesRecords(pages, st.period));
  }

  /** A parsed statement's fees are, in some order, exactly those its lines
      label. */
  lemma ParseStatementFees(pages: seq<Page>)
    requires ParseStatement(pages).Ok?
    ensures multiset(ParseStatement(pages).value.fees) == multiset(PagesFees([], pages, ParseStatement(pages).value.period))
  {
    var st := ParsePages(INITIAL, pages).value;
    assert ParseStatement(pages) == Reconcile(st);
    ParsePagesFees(INITIAL, pages);
  }

  lemma InitialInv()
    ensures Inv(INITIAL)
  {
  }

  /** What every parsed statement satisfies: each list is sorted by id and
      adds up to its summary figure; charges are never negative and payments
      always are, all dated in the period's years; the fees are numbered 1, 2,
      ... and dated on the period's last day. */
  predicate Valid(p: Parsed) {
    && Ledger.SortedById(p.payments) && Ledger.SortedById(p.transactions) && Ledger.SortedById(p.fees)
    && Ledger.Sum(p.payments) == p.totals.payments
    && Ledger.Sum(p.transactions) == p.totals.transactions
    && Ledger.Sum(p.fees) == p.totals.fees
    && (forall k :: 0 <= k < |p.transactions| ==> Kept(p.transactions[k], p.period) && p.transactions[k].amount >= 0)
    && (forall k :: 0 <= k < |p.payments| ==> Kept(p.payments[k], p.period) && p.payments[k].amount < 0)
    && Summary.Numbered(p.fees) && Summary.FeesDated(p.fees, p.period)
  }

  /** The sorted lists of a state that kept the invariant and adds up to its
      summary form a valid statement. */
  lemma SortedValid(st: State, p: Parsed)
    requires st.summary.Some?
    requires Ledger.Sum(st.payments) == st.summary.value.payments
    requires Ledger.Sum(st.transactions) == st.summary.value.transactions
    requires Ledger.Sum(st.fees) == st.summary.value.fees
    requires p == Parsed(st.period, st.summary.value, Ledger.SortById(st.payments), Ledger.SortById(st.transactions),
                         Ledger.SortById(st.fees))
    ensures Inv(st) ==> Valid(p)
  {
    if Inv(st) {
    Ledger.SortKeepsSum(st.payments);
    Ledger.SortKeepsSum(st.transactions);
    Ledger.SortKeepsSum(st.fees);
    SortedKeeps(st.transactions, p.transactions, st.period, true);
    SortedKeeps(st.payments, p.payments, st.period, false);
    NumberedSorted(st.fees);
    }
  }

  /** A permutation keeps what held of every record. */
  lemma SortedKeeps(s: seq<Ledger.Transaction>, r: seq<Ledger.Transaction>, period: Option<BillingPeriod.Period>,
                    charges: bool)
    requires multiset(r) == multiset(s)
    requires forall k :: 0 <= k < |s| ==> Kept(s[k], period) && (s[k].amount >= 0 <==> charges)
    ensures forall k :: 0 <= k < |r| ==> Kept(r[k], period) && (r[k].amount >= 0 <==> charges)
  {
    forall k | 0 <= k < |r|
      ensures Kept(r[k], period) && (r[k].amount >= 0 <==> charges)
    {
      assert r[k] in multiset(s);
    }
  }

  /** Fees numbered 1, 2, ... are already in id order, so sorting leaves them
      in the order they were recorded. */
  lemma {:induction false} NumberedSorted(fees: seq<Ledger.Transaction>)
    requires Summary.Numbered(fees)
    ensures Ledger.SortById(fees) == fees
  {
    SortedUnchanged(fees);
  }

  /** Sorting a list already in id order changes nothing. */
  lemma {:induction false} SortedUnchanged(s: seq<Ledger.Transaction>)
    requires Ledger.SortedById(s)
    ensures Ledger.SortById(s) == s
    decreases |s|
  {
    if |s| > 0 {
      assert Ledger.SortedById(s[1..]);
      SortedUnchanged(s[1..]);
      assert s == [s[0]] + s[1..];
    }
  }
}
