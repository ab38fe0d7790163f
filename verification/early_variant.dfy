/** The earlier script at the repository root (parse_capitalone_pdf_statement.rb):
    each line of a page is cut into one column on the first page and two on
    the others, each column is matched against the script's transaction
    pattern, and the captures of the columns that match are listed in
    column order. */
module EarlyVariant {
  import opened Results
  import opened Text
  import Amount
  import Columns
  import TransactionLine

  /** The script's `parse_transaction` (lines 5-16): nothing for a column
      that is nil (`nil =~ regex` is nil) or does not match; otherwise the five
      captures, as text. */
  function ParseEarly(col: Option<string>): (r: Option<TransactionLine.Fields>)
    ensures r.Some? ==> col.Some? && TransactionLine.Matches(TransactionLine.Early, col.value, r.value)
    ensures col.Some? && r.None? ==> forall f :: !TransactionLine.Matches(TransactionLine.Early, col.value, f)
  {
    match col
    case None => None
    case Some(s) =>
      EarlyIff(s);
      TransactionLine.MatchTransaction(TransactionLine.Early, s)
  }

  lemma EarlyIff(s: string)
    ensures var o := TransactionLine.MatchTransaction(TransactionLine.Early, s);
      && (o.Some? ==> TransactionLine.Matches(TransactionLine.Early, s, o.value))
      && (o.None? ==> forall f :: !TransactionLine.Matches(TransactionLine.Early, s, f))
  {
    forall f | TransactionLine.Matches(TransactionLine.Early, s, f)
      ensures TransactionLine.MatchTransaction(TransactionLine.Early, s) == Some(f)
    {
      TransactionLine.MatchTransactionIff(TransactionLine.Early, s, f);
    }
    var o := TransactionLine.MatchTransaction(TransactionLine.Early, s);
    if o.Some? {
      TransactionLine.MatchTransactionIff(TransactionLine.Early, s, o.value);
    }
  }

  /** `line[5, 72]` on the first page, `[line[0, 72], line[82..-1]]` on the
      others (lines 23-27). */
  function PageColumns(pageNum: nat, line: string): seq<Option<string>> {
    var ranges := Columns.EarlyRanges(pageNum);
    if |ranges| == 1 then [Columns.Slice(line, ranges[0])]
    else [Columns.Slice(line, ranges[0]), Columns.Slice(line, ranges[1])]
  }

  /** `strs.map {|str| parse_transaction(str)}.compact` (line 29): the captures
      of the columns that match, left before right. */
  function EarlyLine(pageNum: nat, line: string): (r: seq<TransactionLine.Fields>)
    ensures |r| <= if pageNum == 0 then 1 else 2
    ensures forall k :: 0 <= k < |r| ==> TransactionLine.WellFormed(TransactionLine.Early, r[k])
  {
    var parsed := ParseColumns(PageColumns(pageNum, line));
    CompactWellFormed(parsed);
    Compact(parsed)
  }

  /** `strs.map {|str| parse_transaction(str)}` */
  function ParseColumns(cols: seq<Option<string>>): (r: seq<Option<TransactionLine.Fields>>)
    ensures |r| == |cols|
    ensures forall k :: 0 <= k < |r| ==> r[k].Some? ==> TransactionLine.WellFormed(TransactionLine.Early, r[k].value)
  {
    if |cols| == 0 then [] else [ParseEarly(cols[0])] + ParseColumns(cols[1..])
  }

  lemma {:induction false} CompactWellFormed(os: seq<Option<TransactionLine.Fields>>)
    requires forall k :: 0 <= k < |os| ==> os[k].Some? ==> TransactionLine.WellFormed(TransactionLine.Early, os[k].value)
    ensures forall k :: 0 <= k < |Compact(os)| ==> TransactionLine.WellFormed(TransactionLine.Early, Compact(os)[k])
    decreases |os|
  {
    if |os| > 0 {
      CompactWellFormed(os[1..]);
    }
  }

  /** The records the script prints for one page, line by line (lines
      22-32). */
  function EarlyPage(pageNum: nat, lines: seq<string>): (r: seq<TransactionLine.Fields>)
    ensures |r| <= 2 * |lines|
    ensures forall k :: 0 <= k < |r| ==> TransactionLine.WellFormed(TransactionLine.Early, r[k])
  {
    if |lines| == 0 then [] else EarlyLine(pageNum, lines[0]) + EarlyPage(pageNum, lines[1..])
  }

  /** The records of a page are those of its first lines followed by those of
      the rest: the script keeps the order of the lines. */
  lemma {:induction false} EarlyPageAppend(pageNum: nat, a: seq<string>, b: seq<string>)
    ensures EarlyPage(pageNum, a + b) == EarlyPage(pageNum, a) + EarlyPage(pageNum, b)
    decreases |a|
  {
    if |a| == 0 {
      assert a + b == b;
    } else {
      assert (a + b)[0] == a[0];
      assert (a + b)[1..] == a[1..] + b;
      EarlyPageAppend(pageNum, a[1..], b);
    }
  }

  /** A first-page line yields what its one column yields. */
  lemma FirstPageLine(line: string)
    ensures EarlyLine(0, line) == Listed(ParseEarly(Columns.Slice(line, Columns.Counted(5, 72))))
  {
    var parsed := [ParseEarly(Columns.Slice(line, Columns.Counted(5, 72)))];
    assert ParseColumns(PageColumns(0, line)) == parsed;
    assert parsed[1..] == [];
  }

  /** A later-page line yields what its left column yields, then what its
      right column yields. */
  lemma LaterPageLine(pageNum: nat, line: string)
    requires pageNum > 0
    ensures EarlyLine(pageNum, line) ==
      Listed(ParseEarly(Columns.Slice(line, Columns.Counted(0, 72)))) + Listed(ParseEarly(Columns.Slice(line, Columns.FromOn(82))))
  {
    var left := Columns.Slice(line, Columns.Counted(0, 72));
    var right := Columns.Slice(line, Columns.FromOn(82));
    assert PageColumns(pageNum, line) == [left, right];
    ParsePair(left, right);
    CompactPair(ParseEarly(left), ParseEarly(right));
  }

  /** Two columns are parsed one by one, in order. */
  lemma ParsePair(left: Option<string>, right: Option<string>)
    ensures ParseColumns([left, right]) == [ParseEarly(left), ParseEarly(right)]
  {
    var cols := [left, right];
    assert cols[1..] == [right] && cols[1..][1..] == [];
  }

  /** The three columns the script cuts, as slices of the line. */
  lemma EarlySlices(line: string)
    ensures |line| >= 5 ==> Columns.Slice(line, Columns.Counted(5, 72)) == Some(line[5..Columns.Min(77, |line|)])
    ensures |line| < 5 ==> Columns.Slice(line, Columns.Counted(5, 72)).None?
    ensures Columns.Slice(line, Columns.Counted(0, 72)) == Some(line[..Columns.Min(72, |line|)])
    ensures |line| >= 82 ==> Columns.Slice(line, Columns.FromOn(82)) == Some(line[82..])
    ensures |line| < 82 ==> Columns.Slice(line, Columns.FromOn(82)).None?
  {
  }

  /** On the first page a line yields the captures of `line[5, 72]` when that
      column matches. */
  lemma FirstPageMatch(line: string, f: TransactionLine.Fields)
    requires |line| >= 5 && TransactionLine.Matches(TransactionLine.Early, line[5..Columns.Min(77, |line|)], f)
    ensures EarlyLine(0, line) == [f]
  {
    FirstPageLine(line);
    EarlySlices(line);
    MatchedColumn(line[5..Columns.Min(77, |line|)], f);
  }

  /** On the first page a line too short for the column, or whose column does
      not match, yields nothing. */
  lemma FirstPageNoMatch(line: string)
    requires |line| < 5 || forall f :: !TransactionLine.Matches(TransactionLine.Early, line[5..Columns.Min(77, |line|)], f)
    ensures EarlyLine(0, line) == []
  {
    FirstPageLine(line);
    EarlySlices(line);
  }

  /** On a later page a line whose left column `line[0, 72]` matches and
      whose right column is missing or does not match yields the left
      record alone. */
  lemma LeftColumnOnly(pageNum: nat, line: string, f: TransactionLine.Fields)
    requires pageNum > 0
    requires TransactionLine.Matches(TransactionLine.Early, line[..Columns.Min(72, |line|)], f)
    requires |line| < 82 || forall g :: !TransactionLine.Matches(TransactionLine.Early, line[82..], g)
    ensures EarlyLine(pageNum, line) == [f]
  {
    LaterPageLine(pageNum, line);
    EarlySlices(line);
    MatchedColumn(line[..Columns.Min(72, |line|)], f);
    assert [f] + [] == [f];
  }

  /** On a later page a line whose left column does not match and whose right
      column `line[82..-1]` does yields the right record alone. */
  lemma RightColumnOnly(pageNum: nat, line: string, g: TransactionLine.Fields)
    requires pageNum > 0 && |line| >= 82
    requires forall f :: !TransactionLine.Matches(TransactionLine.Early, line[..72], f)
    requires TransactionLine.Matches(TransactionLine.Early, line[82..], g)
    ensures EarlyLine(pageNum, line) == [g]
  {
    LaterPageLine(pageNum, line);
    EarlySlices(line);
    MatchedColumn(line[82..], g);
    assert [] + [g] == [g];
  }

  /** On a later page a line neither of whose columns matches yields
      nothing. */
  lemma NeitherColumn(pageNum: nat, line: string)
    requires pageNum > 0
    requires forall f :: !TransactionLine.Matches(TransactionLine.Early, line[..Columns.Min(72, |line|)], f)
    requires |line| < 82 || forall g :: !TransactionLine.Matches(TransactionLine.Early, line[82..], g)
    ensures EarlyLine(pageNum, line) == []
  {
    LaterPageLine(pageNum, line);
    EarlySlices(line);
  }

  /** A column that matches is read as its captures. */
  lemma MatchedColumn(col: string, f: TransactionLine.Fields)
    requires TransactionLine.Matches(TransactionLine.Early, col, f)
    ensures ParseEarly(Some(col)) == Some(f)
  {
    TransactionLine.MatchTransactionIff(TransactionLine.Early, col, f);
  }

  /** On a later page a line whose two columns both match yields the left
      record, then the right one. */
  lemma BothColumns(pageNum: nat, line: string, f: TransactionLine.Fields, g: TransactionLine.Fields)
    requires pageNum > 0 && |line| >= 82
    requires TransactionLine.Matches(TransactionLine.Early, line[..72], f)
    requires TransactionLine.Matches(TransactionLine.Early, line[82..], g)
    ensures EarlyLine(pageNum, line) == [f, g]
  {
    LaterColumns(pageNum, line);
    var left, right := line[..72], line[82..];
    TransactionLine.MatchTransactionIff(TransactionLine.Early, left, f);
    TransactionLine.MatchTransactionIff(TransactionLine.Early, right, g);
    var cols := [Some(left), Some(right)];
    assert ParseColumns(cols) == [Some(f), Some(g)] by {
      assert cols[1..][1..] == [];
    }
    CompactBoth(f, g);
  }

  /** The two columns of a long line on a later page. */
  lemma LaterColumns(pageNum: nat, line: string)
    requires pageNum > 0 && |line| >= 82
    ensures PageColumns(pageNum, line) == [Some(line[..72]), Some(line[82..])]
  {
    assert Columns.Slice(line, Columns.Counted(0, 72)) == Some(line[..72]);
  }

  lemma CompactBoth(f: TransactionLine.Fields, g: TransactionLine.Fields)
    ensures Compact([Some(f), Some(g)]) == [f, g]
  {
    var parsed := [Some(f), Some(g)];
    assert parsed[1..][1..] == [];
  }

  /** The script's pattern is anchored at the start of the column, so a
      column with leading spaces never matches, while the library's pattern
      reads the same line. */
  lemma IndentRejected(f: TransactionLine.Fields, lead: nat, gap: nat, pad: nat, trail: nat)
    requires TransactionLine.WellFormed(TransactionLine.Current, f)
    requires lead >= 1 && gap >= 1 && pad >= 1
    ensures ParseEarly(Some(TransactionLine.Render(f, lead, gap, pad, trail))).None?
    ensures TransactionLine.MatchTransaction(TransactionLine.Current, TransactionLine.Render(f, lead, gap, pad, trail)) == Some(f)
  {
    var line := TransactionLine.Render(f, lead, gap, pad, trail);
    assert line[0] == ' ';
    TransactionLine.LaidOf(f, false, lead, gap, pad, trail);
    TransactionLine.MatchTransactionIff(TransactionLine.Current, line, f);
    TransactionLine.ShapeSound(line, true);
  }

  /** A record printed from column 0 is read back with all five captures, as
      printed. */
  lemma EarlyPrinted(f: TransactionLine.Fields, gap: nat, pad: nat, trail: nat)
    requires TransactionLine.WellFormed(TransactionLine.Early, f)
    requires gap >= 1 && pad >= 1
    ensures ParseEarly(Some(TransactionLine.Render(f, 0, gap, pad, trail))) == Some(f)
  {
    TransactionLine.LaidOf(f, true, 0, gap, pad, trail);
    TransactionLine.MatchTransactionIff(TransactionLine.Early, TransactionLine.Render(f, 0, gap, pad, trail), f);
  }

  /** The script's amount pattern is looser than the library's: it takes any
      run of digits, commas and points after the dollar sign, such as
      `$1.5`, which the library does not read as an amount. */
  lemma LooseAmountWider()
    ensures TransactionLine.IsLooseAmount("$1.5") && !Amount.IsAmountToken("$1.5")
  {
    var t := "$1.5";
    assert Amount.OpenLength(t) == 0 && Amount.CloseLength(t) == 0;
    assert Amount.Figure(t) == t;
    assert t[|t| - 3] == '1';
  }
}
