/** Cutting a statement line into its two columns and repairing a column
    whose amount was pushed onto the following line
    (lib/parse_capitalone_pdf_statement.rb:179-200), and the single-column /
    two-column cut of the earlier script (parse_capitalone_pdf_statement.rb:23-27).
    A cut follows Ruby's `String#[]`: past the end of the string it gives nil,
    which the library turns into "" with `to_s`. */
module Columns {
  import opened Results
  import opened Text
  import Amount
  import TransactionLine

  /** A positive `String#[]` argument. */
  datatype Range =
      /** `s[first..last]` */
    | Through(first: nat, last: nat)
      /** `s[first..-1]` */
    | FromOn(first: nat)
      /** `s[start, count]` */
    | Counted(first: nat, count: nat)

  function Min(a: int, b: int): int {
    if a <= b then a else b
  }

  /** How many characters the range asks for, `None` for "to the end". */
  function Width(r: Range): Option<nat> {
    match r
    case Through(a, b) => Some(if b + 1 <= a then 0 else b + 1 - a)
    case FromOn(_) => None
    case Counted(_, n) => Some(n)
  }

  /** `s[r]` in Ruby: nil when the range starts past the end of `s`,
      otherwise the characters from `r.first` on, as many as the range asks
      for and the string has. */
  function Slice(s: string, r: Range): (o: Option<string>)
    ensures o.None? <==> r.first > |s|
    ensures o.Some? ==> r.first + |o.value| <= |s| && o.value == s[r.first..r.first + |o.value|]
    ensures o.Some? ==> match Width(r)
                        case None => r.first + |o.value| == |s|
                        case Some(w) => |o.value| == Min(w, |s| - r.first)
  {
    if r.first > |s| then None
    else
      match r
      case Through(a, b) => Some(s[a..if b + 1 <= a then a else Min(b + 1, |s|)])
      case FromOn(a) => Some(s[a..])
      case Counted(a, n) => Some(s[a..Min(a + n, |s|)])
  }

  /** `to_s`: nil becomes "". */
  function OrEmpty(o: Option<string>): string {
    match o
    case None => []
    case Some(s) => s
  }

  /** The library's two columns: transactions on the left, payments on the
      right, with the character at index 79 between them. */
  const LEFT: Range := Through(0, 78)
  const RIGHT: Range := FromOn(80)

  /** `line.to_s[index].to_s` */
  function Column(line: string, r: Range): string {
    OrEmpty(Slice(line, r))
  }

  /** The two columns keep every character of the line but the separator at
      index 79: a line of 80 or more characters is the left column, the
      separator and the right column; a shorter line is all left column. */
  lemma LibraryColumnsPartition(line: string)
    ensures |line| >= 80 ==> line == Column(line, LEFT) + [line[79]] + Column(line, RIGHT)
    ensures |line| < 80 ==> Column(line, LEFT) == line && Column(line, RIGHT) == []
  {
    if |line| >= 80 {
      assert line == line[..79] + [line[79]] + line[80..];
    } else {
      assert line[0..|line|] == line;
    }
  }

  /** The earlier script's columns: one column at indices 5-76 on the first
      page; on the others indices 0-71 and 82 onwards. */
  const EARLY_FIRST_PAGE: seq<Range> := [Counted(5, 72)]
  const EARLY_OTHER_PAGES: seq<Range> := [Counted(0, 72), FromOn(82)]

  function EarlyRanges(pageNum: nat): seq<Range> {
    if pageNum == 0 then EARLY_FIRST_PAGE else EARLY_OTHER_PAGES
  }

  /** Of a line of 82 or more characters on a later page, the script reads
      everything except indices 72-81. */
  lemma EarlyColumnsPartition(line: string)
    requires |line| >= 82
    ensures Slice(line, Counted(0, 72)).Some? && Slice(line, FromOn(82)).Some?
    ensures line == Slice(line, Counted(0, 72)).value + line[72..82] + Slice(line, FromOn(82)).value
  {
    assert line == line[..72] + line[72..82] + line[82..];
  }

  /** `repair_transaction_line`: when the next line's column holds nothing but
      an amount and this column holds none, the amount is appended to this
      column after a space. */
  function Repair(col: string, nextCol: string): (r: string)
    ensures Amount.HasAmount(r) <==> Amount.HasAmount(col) || Amount.IsAmountOnly(nextCol)
    ensures r == col || (Amount.IsAmountOnly(nextCol) && !Amount.HasAmount(col)
                         && r == col + " " + TrimSpaces(nextCol))
  {
    if Amount.IsAmountOnly(nextCol) && !Amount.HasAmount(col) then
      Amount.HasAmountAfter(col + " ", TrimSpaces(nextCol));
      col + " " + TrimSpaces(nextCol)
    else col
  }

  /** The text the library parses for one column of `line`: the column,
      repaired against the same column of the next line, or of "" when there
      is none (lines 181-184). */
  function Repaired(line: string, next: Option<string>, r: Range): string {
    Repair(Column(line, r), Column(OrEmpty(next), r))
  }

  /** Repairing twice against the same next line changes nothing more: once
      repaired, the column holds an amount. */
  lemma RepairIdempotent(col: string, nextCol: string)
    ensures Repair(Repair(col, nextCol), nextCol) == Repair(col, nextCol)
  {
  }

  /** A column left unchanged either already holds an amount or has no
      amount-only line after it; a changed one gains exactly the trimmed
      amount. */
  lemma RepairChangesOnlyWhenNeeded(col: string, nextCol: string)
    ensures Repair(col, nextCol) != col <==> Amount.IsAmountOnly(nextCol) && !Amount.HasAmount(col)
  {
    if Amount.IsAmountOnly(nextCol) && !Amount.HasAmount(col) {
      assert |Repair(col, nextCol)| > |col|;
    }
  }

  /** The purpose of the repair: a transaction whose amount wrapped onto the
      next line, padded there with spaces, is recognised again once repaired,
      with that amount. */
  lemma RepairRecoversTransaction(f: TransactionLine.Fields, lead: nat, gap: nat, a: nat, b: nat)
    requires TransactionLine.WellFormed(TransactionLine.Current, f) && gap >= 1
    requires var col := Spaces(lead) + f.id + Spaces(gap) + (f.day + " " + f.month + " " + f.desc);
      !Amount.HasAmount(col)
    ensures var col := Spaces(lead) + f.id + Spaces(gap) + (f.day + " " + f.month + " " + f.desc);
      TransactionLine.MatchTransaction(TransactionLine.Current, Repair(col, Spaces(a) + f.amount + Spaces(b))) == Some(f)
  {
    var col := Spaces(lead) + f.id + Spaces(gap) + (f.day + " " + f.month + " " + f.desc);
    RepairWrapped(col, a, f.amount, b);
    RenderWrapped(f, lead, gap);
    var line := Repair(col, Spaces(a) + f.amount + Spaces(b));
    TransactionLine.LaidOf(f, false, lead, gap, 1, 0);
    TransactionLine.MatchTransactionIff(TransactionLine.Current, line, f);
  }

  /** A column without an amount, followed by a padded amount, gains exactly
      that amount. */
  lemma RepairWrapped(col: string, a: nat, t: string, b: nat)
    requires Amount.IsAmountToken(t) && !Amount.HasAmount(col)
    ensures Repair(col, Spaces(a) + t + Spaces(b)) == col + " " + t
  {
    Amount.PaddedTokenIsAmountOnly(a, t, b);
  }

  /** The repaired column is the line printed with one space before the
      amount and none after it. */
  lemma RenderWrapped(f: TransactionLine.Fields, lead: nat, gap: nat)
    ensures Spaces(lead) + f.id + Spaces(gap) + (f.day + " " + f.month + " " + f.desc) + " " + f.amount
      == TransactionLine.Render(f, lead, gap, 1, 0)
  {
    assert Spaces(1) == " " && Spaces(0) == [];
  }
}
