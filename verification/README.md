# Capital One statement parser — a Dafny model

This project models the statement-parsing core of `CapitalOneStatement`
(lib/parse_capitalone_pdf_statement.rb). The parser reads a monthly Capital
One credit-card statement page by page and does five things:

- It finds the billing-period header `MMM. DD - MMM. DD, YYYY` among the
  page's text-drawing calls and works out the statement year.
- It reads the five summary totals from the first line that holds exactly
  five amounts.
- It synthesises fee records from the "Total Fees This Period" and "Total
  Interest This Period" lines.
- It cuts every line into a left and a right column. It repairs a column
  whose amount wrapped onto the next line, and reads each column as a
  transaction `<id> <dd> <MMM> <description> <amount>`.
- Finally it sorts payments, transactions and fees by id and checks each
  list's sum against the summary.

It also models the earlier script at the repository root
(parse_capitalone_pdf_statement.rb). That script cuts one column on the first
page and two on the others, and lists the captures of every column that
matches its looser transaction pattern.

Amounts are integer cents. A parse that the Ruby code ends by raising an
exception is an `Err` of `Results.ParseError`:

- `BillingCycleUndetermined` when a transaction or fee is read before any
  header;
- `InvalidDate` when `Date.parse` meets an unknown month abbreviation;
- `SummaryMissing` when no summary line was ever seen, so `nil.round` fails;
- `TotalMismatch` from `check_total`.

Modules, in dependency order:

- `Results`: `Option`, `Result`, the error kinds, and `compact`.
- `Text`: spaces, digits, `strip`, `upcase` and the `gsub` used by `parse_amount`.
- `Amount`: `AMOUNT_REGEX`, `AMOUNT_ONLY_REGEX`, `scan` and `parse_amount`.
- `BillingPeriod`: `DATE_REGEX`, the walker and the transaction year.
- `TransactionLine`: `TRANSACTION_REGEX` and the earlier script's pattern, as a recogniser proved equivalent to the regex's reading.
- `Columns`: the `String#[]` column cuts and `repair_transaction_line`.
- `Ledger`: `parse_transaction`, `check_billing_cycle`, the sort by id and sums.
- `Summary`: the summary block and the fee labels.
- `Statement`: `parse_pdf_line`, the line loop, the page loop, `check_total` and `initialize`.
- `EarlyVariant`: the earlier script.

In these places the model follows the code where a reader might expect
otherwise:

- Ids are sorted, not checked. `sort_by` leaves equal ids next to each
  other, so the model proves each list non-decreasing by id, not "strictly
  increasing without duplicates".
- The header walk runs on every page until a period is found (`if
  @year.nil?`), not only on the first page. A page whose walk finds nothing
  leaves the period unknown.
- The fee list is reconciled as well (`%w{payments transactions fees}`), after
  payments and then transactions.
- Payments are the records with a negative amount (`partition` on
  `amount >= 0`). A record of amount zero is a transaction.
- A fee label with a non-zero amount before any header raises the
  billing-cycle error too, not only a transaction line.
- A statement without a summary line does not parse, because `nil.round`
  raises.

## Model

| member | source | states |
|---|---|---|
| Results.Compact | lib/parse_capitalone_pdf_statement.rb:184-186 | `compact` keeps exactly the present values: every result is one of them and every present value is in the result, and it never grows the list |
| Results.CompactAppend | lib/parse_capitalone_pdf_statement.rb:184-186 | compacting a concatenation is concatenating the compacted parts, so columns keep their left-to-right order |
| Results.CompactPair | lib/parse_capitalone_pdf_statement.rb:184-186 | compacting the two column readings keeps the left one's value, if any, then the right one's |
| Text.TrimSpaces | lib/parse_capitalone_pdf_statement.rb:196 | `strip` leaves a string that neither starts nor ends with a space, and the input is that string with only spaces around it |
| Text.TrimSpacesOf | lib/parse_capitalone_pdf_statement.rb:196 | stripping a space-padded word gives the word back |
| Text.KeepNumeric | lib/parse_capitalone_pdf_statement.rb:215 | `gsub(/[^\d.]/, '')` leaves only digits and points and never lengthens the text |
| Text.KeepNumericAppend | lib/parse_capitalone_pdf_statement.rb:215 | the character filter works piecewise over a concatenation |
| Amount.AmountPrefixMatchesToken | lib/parse_capitalone_pdf_statement.rb:40 | the greedy left-to-right matcher accepts a whole string exactly when the string has the form `\(?\$[\d,]+\.\d\d\)?` |
| Amount.AmountPrefixToken | lib/parse_capitalone_pdf_statement.rb:40 | whatever prefix the matcher accepts is a well-formed amount token |
| Amount.TokenPrefix | lib/parse_capitalone_pdf_statement.rb:40 | a token followed by a space or by nothing is matched in full, no shorter and no longer |
| Amount.ScanAmounts | lib/parse_capitalone_pdf_statement.rb:147 | every match `scan` returns is an amount token |
| Amount.ScanFindsAmount | lib/parse_capitalone_pdf_statement.rb:195 | `line =~ AMOUNT_REGEX` succeeds exactly when `scan` finds at least one amount |
| Amount.HasAmountAfter | lib/parse_capitalone_pdf_statement.rb:195 | a line that ends in an amount token contains an amount |
| Amount.PaddedTokenIsAmountOnly | lib/parse_capitalone_pdf_statement.rb:41 | a token with any spaces on either side matches `AMOUNT_ONLY_REGEX`, and stripping it gives the token |
| Amount.ParseAmount | lib/parse_capitalone_pdf_statement.rb:214-217 | a token opening with '(' is never positive and any other token is never negative |
| Amount.ParseAmountMagnitude | lib/parse_capitalone_pdf_statement.rb:214-217 | the magnitude is the decimal read from the token once everything but digits and '.' is removed |
| Amount.FormatAmount | lib/parse_capitalone_pdf_statement.rb:40 | every amount in cents has a printed form that `AMOUNT_REGEX` accepts |
| Amount.ParseFormatAmount | lib/parse_capitalone_pdf_statement.rb:214-217 | reading the printed form of any amount gives the amount back, sign included |
| Amount.ZeroIsPrintedAsRubyLiteral | lib/parse_capitalone_pdf_statement.rb:159 | the printed form of zero is exactly the `'$0.00'` literal the fee lines are compared with |
| Amount.ThousandsExample | lib/parse_capitalone_pdf_statement.rb:214-217 | `$1,234.56` is a token and reads as 1234.56 |
| Amount.ParenthesesExample | lib/parse_capitalone_pdf_statement.rb:214-217 | `($45.00)` is a token and reads as -45.00 |
| BillingPeriod.MonthNumber | lib/parse_capitalone_pdf_statement.rb:119-120 | `Date.parse` reads a month exactly when the text is, ignoring case, one of the twelve abbreviations, and it names that month |
| BillingPeriod.MonthNumberOfName | lib/parse_capitalone_pdf_statement.rb:119-120 | every month's printed abbreviation reads back as that month |
| BillingPeriod.FindHeaderFrom | lib/parse_capitalone_pdf_statement.rb:116 | the match is the leftmost position at which `DATE_REGEX` matches, and none is found only when it matches nowhere |
| BillingPeriod.FindHeader | lib/parse_capitalone_pdf_statement.rb:116 | a found header is a `DATE_REGEX` match taken from the text, and none is found exactly when there is no match |
| BillingPeriod.CallHeader | lib/parse_capitalone_pdf_statement.rb:116 | a call yields a header exactly when one of its arguments contains one |
| BillingPeriod.DecodeHeader | lib/parse_capitalone_pdf_statement.rb:117-120 | decoding fails exactly when a month is unknown; the offset is one iff the period runs from December into January; the end date takes the printed year, the start date one year less in that case; the days are as printed |
| BillingPeriod.DecodeFormatHeader | lib/parse_capitalone_pdf_statement.rb:116-121 | any printed header decodes back to its months, days and year, with the December-January flag set exactly when the period crosses the year |
| BillingPeriod.CaptureFormatHeader | lib/parse_capitalone_pdf_statement.rb:39 | the five groups captured from a printed header are the values it was printed from |
| BillingPeriod.Walk | lib/parse_capitalone_pdf_statement.rb:107-131 | a walk over calls without a header leaves what was known unchanged, and a walk that starts knowing a period never forgets it |
| BillingPeriod.LastHeaderWins | lib/parse_capitalone_pdf_statement.rb:113-125 | a header drawn after all others decides the period, or makes the walk fail if it does not decode |
| BillingPeriod.WalkAppend | lib/parse_capitalone_pdf_statement.rb:107-126 | walking two runs of calls is walking the first, then the second from its result; a failure in the first run is the result of the whole walk |
| BillingPeriod.BadHeaderFails | lib/parse_capitalone_pdf_statement.rb:116-120 | a header with an unknown month fails the walk with its error, whatever headers are drawn after it |
| BillingPeriod.TransactionYearInPeriod | lib/parse_capitalone_pdf_statement.rb:208 | a December transaction in a year-crossing period falls in the start date's year, every other one in the end date's year, and the year moves back in that case only |
| BillingPeriod.CrossingHeaderExample | lib/parse_capitalone_pdf_statement.rb:116-121 | `DEC. 15 - JAN. 14, 2024` gives year 2024 with the crossing flag set, dates 2023-12-15 to 2024-01-14, and DEC and JAN transactions fall in 2023 and 2024 |
| BillingPeriod.CrossingHeaderCaptures | lib/parse_capitalone_pdf_statement.rb:39 | `DEC. 15 - JAN. 14, 2024` matches `DATE_REGEX` with captures DEC, 15, JAN, 14, 2024 |
| TransactionLine.MatchTransactionIff | lib/parse_capitalone_pdf_statement.rb:44-46 | the recogniser returns captures f exactly when the line is f laid out as the pattern demands; this holds for both dialects |
| TransactionLine.MatchesUnique | lib/parse_capitalone_pdf_statement.rb:44-46 | the pattern can read a line in at most one way |
| TransactionLine.ShapeSound | lib/parse_capitalone_pdf_statement.rb:44-46 | whatever the recogniser cuts from a line has the shape of the five groups and lays the line out again |
| TransactionLine.ShapeComplete | lib/parse_capitalone_pdf_statement.rb:44-46 | any line laid out from well-shaped groups is cut back into exactly those groups |
| TransactionLine.LaidOf | lib/parse_capitalone_pdf_statement.rb:44-46 | printing groups with at least one space after the id and before the amount gives a line the pattern reads |
| Columns.Slice | lib/parse_capitalone_pdf_statement.rb:180-181 | `String#[]` with a range is nil exactly when the start lies past the end; otherwise it is the part of the line from the start, cut at the range's end or at the line's end |
| Columns.LibraryColumnsPartition | lib/parse_capitalone_pdf_statement.rb:179-181 | the left column, character 79 and the right column make up the whole line; a line shorter than 80 is all left column |
| Columns.EarlyColumnsPartition | parse_capitalone_pdf_statement.rb:23-27 | on later pages a line of at least 82 characters is its first 72, ten skipped characters, and the rest |
| Columns.Repair | lib/parse_capitalone_pdf_statement.rb:194-200 | the repaired column holds an amount exactly when the column or the next line's amount-only column does; the column changes only by appending the stripped next-line amount |
| Columns.RepairIdempotent | lib/parse_capitalone_pdf_statement.rb:194-200 | repairing twice against the same next column is repairing once |
| Columns.RepairChangesOnlyWhenNeeded | lib/parse_capitalone_pdf_statement.rb:195 | a column changes exactly when it holds no amount and the next column holds only an amount |
| Columns.RepairRecoversTransaction | lib/parse_capitalone_pdf_statement.rb:194-200 | a transaction whose amount wrapped onto the next line is read back in full after repair |
| Ledger.CheckBillingCycle | lib/parse_capitalone_pdf_statement.rb:219-221 | succeeds exactly when a period is known, and then yields it |
| Ledger.ParseTransaction | lib/parse_capitalone_pdf_statement.rb:202-212 | a record read from a line is well formed and dated in the year its month resolves to; before any period the error is the billing-cycle one, afterwards only a bad month can fail |
| Ledger.ParsePrintedTransaction | lib/parse_capitalone_pdf_statement.rb:202-212 | printing a record and reading it back under its period gives the same record |
| Ledger.ParseTransactionNone | lib/parse_capitalone_pdf_statement.rb:203-204 | a line yields no record without error exactly when every reading of it is the member-fee line |
| Ledger.ParseTransactionFails | lib/parse_capitalone_pdf_statement.rb:206-209 | a line fails exactly when it is read as a non-fee transaction while the period is unknown or its month is not one `Date.parse` knows |
| Ledger.Record | lib/parse_capitalone_pdf_statement.rb:208-211 | the record built from captures is well formed and dated in the transaction year of its month |
| Ledger.SortById | lib/parse_capitalone_pdf_statement.rb:78 | `sort_by {|trx| trx[:id]}` returns a permutation of the list with ids in non-decreasing order |
| Ledger.SumOfPermutation | lib/parse_capitalone_pdf_statement.rb:83 | lists with the same records have the same sum |
| Ledger.SortKeepsSum | lib/parse_capitalone_pdf_statement.rb:78-83 | sorting before summing does not change the sum |
| Summary.CaptureSummary | lib/parse_capitalone_pdf_statement.rb:146-157 | once the totals are known no line changes them; before that a line sets them exactly when it holds five amounts |
| Summary.ScanJoined | lib/parse_capitalone_pdf_statement.rb:147 | scanning space-separated tokens finds exactly those tokens, in order |
| Summary.CaptureSummaryLine | lib/parse_capitalone_pdf_statement.rb:147-155 | a line of five amounts gives previous balance, payments (negated), fees, transactions and new balance in that order |
| Summary.NoSummaryWithoutFive | lib/parse_capitalone_pdf_statement.rb:148 | a line with fewer or more than five amounts sets no totals |
| Summary.FindLabelledNone | lib/parse_capitalone_pdf_statement.rb:42-43 | a fee label is missed exactly when the pattern matches at no position of the line |
| Summary.FindLabelledLeftmost | lib/parse_capitalone_pdf_statement.rb:42-43 | the amount captured is the one at the leftmost position where the label pattern matches |
| Summary.FindPrintedLabel | lib/parse_capitalone_pdf_statement.rb:42-43 | an indented label followed by spaces and an amount captures that amount |
| Summary.SkipIndent | lib/parse_capitalone_pdf_statement.rb:42-43 | indentation before a label does not change what is captured |
| Summary.AddFee | lib/parse_capitalone_pdf_statement.rb:159-177 | no fee is added for a missing or `$0.00` amount; otherwise exactly one record is appended after the existing fees, numbered one past their count, dated on the period's end, with the label text, the token as printed and its value; it fails exactly when a fee is due and no period is known |
| Statement.Charges | lib/parse_capitalone_pdf_statement.rb:186-188 | the records kept as transactions are those of the column records with a non-negative amount |
| Statement.Credits | lib/parse_capitalone_pdf_statement.rb:186-188 | the records kept as payments are those of the column records with a negative amount |
| Statement.PartitionKeepsAll | lib/parse_capitalone_pdf_statement.rb:186-188 | together the two halves of `partition` are exactly the column records |
| Statement.ColumnRecords | lib/parse_capitalone_pdf_statement.rb:179-188 | a line gives at most two records, each dated in the year its month resolves to in the period; when it fails, the error is the billing-cycle one exactly when no period is known; `ColumnsRead` states which records they are |
| Statement.ColumnsRead | lib/parse_capitalone_pdf_statement.rb:179-186 | the records are those read from the left column (characters 0-78) and then the right column (80 on), each repaired against the same column of the next line, or of "" at the end of the page; the left column's error wins, then the right one's |
| Statement.TwoColumnsPrinted | lib/parse_capitalone_pdf_statement.rb:179-188 | a line printing one transaction in the left column and another from index 80 on yields the left one and then the right one |
| Statement.WrappedAmountLine | lib/parse_capitalone_pdf_statement.rb:179-186 | a transaction whose amount was pushed onto the next line is read in full, with that amount, and nothing is read from the empty right columns |
| Statement.ColumnRecordsPrinted | lib/parse_capitalone_pdf_statement.rb:179-191 | a printed transaction on a short line with no next line is read back as that one record |
| Statement.ProcessLinePrinted | lib/parse_capitalone_pdf_statement.rb:179-192 | a printed transaction on a short last line is processed without error and appended to the transactions when its amount is non-negative and to the payments otherwise, adding nothing else to either list |
| Statement.SplitAppend | lib/parse_capitalone_pdf_statement.rb:186-191 | splitting the records of two lines by sign is the same as splitting each and appending the halves |
| Statement.ColumnsSilent | lib/parse_capitalone_pdf_statement.rb:179-188 | a line whose columns succeed without a known period has no records, so it has none under any period |
| Statement.LineFees | lib/parse_capitalone_pdf_statement.rb:159-177 | the fee lines only append to the fee list, keep it numbered 1, 2, ... and dated on the period's end, and fail only when no period is known |
| Statement.LineFeesRecords | lib/parse_capitalone_pdf_statement.rb:159-177 | with a period known, the fee list becomes the old fees, then the member fee if one was charged, then the interest charge if one was charged, numbered on from the old count and dated on the period's end |
| Statement.LineFeesUnknown | lib/parse_capitalone_pdf_statement.rb:159-177 | with no period known, a line fails with the billing-cycle error exactly when it charges a member fee or interest, and otherwise leaves the fees as they were |
| Statement.ProcessLine | lib/parse_capitalone_pdf_statement.rb:145-192 | a line succeeds exactly when both its fee lines and its columns do; the fees become what the fee lines give, the transactions and payments grow by the non-negative and negative column records respectively; the period is kept, the totals follow `CaptureSummary`, and the invariant on signs, dates and fee numbering is preserved |
| Statement.DropBlank | lib/parse_capitalone_pdf_statement.rb:137 | skipping empty lines removes only empty lines, stops at a non-empty one, and leaves a suffix |
| Statement.Schedule | lib/parse_capitalone_pdf_statement.rb:133-141 | the loop makes no more turns than there are lines, and every turn after the first starts on a non-empty line |
| Statement.ScheduleVisits | lib/parse_capitalone_pdf_statement.rb:133-141 | the loop's current lines are the first line and then every non-empty line, in order |
| Statement.ScheduleNext | lib/parse_capitalone_pdf_statement.rb:137-138 | each turn's next line is the following turn's current line, and the last turn has none |
| Statement.ScheduleStarts | lib/parse_capitalone_pdf_statement.rb:136 | a page has turns exactly when it has lines, and the first turn reads the first line |
| Statement.DropBlankNonBlank | lib/parse_capitalone_pdf_statement.rb:137 | skipping empty lines loses no non-empty line |
| Statement.RunLines | lib/parse_capitalone_pdf_statement.rb:135-141 | the line loop keeps the period and the invariant, only appends to the lists, never changes known totals; when it fails, the error is the billing-cycle one exactly when no period is known |
| Statement.RunLinesRecords | lib/parse_capitalone_pdf_statement.rb:135-141 | the lines of a page add to the transactions and payments exactly the non-negative and negative records of their columns, line after line |
| Statement.RunLinesFees | lib/parse_capitalone_pdf_statement.rb:135-141 | the fee list after the line loop is what the lines' fee labels give one after the other |
| Statement.RunLinesSilent | lib/parse_capitalone_pdf_statement.rb:135-141 | lines that all succeed without a known period hold no column records under any period |
| Statement.PageWithoutSummary | lib/parse_capitalone_pdf_statement.rb:146-157 | a page leaves the totals unknown exactly when none of its lines holds five amounts |
| Statement.SummaryFromFirstFive | lib/parse_capitalone_pdf_statement.rb:146-157 | the totals come from the first line that holds five amounts |
| Statement.ParsePage | lib/parse_capitalone_pdf_statement.rb:106-141 | a page never replaces a known period; while none is known the page's walk decides it, and a walk that fails fails the page with its error; a page only appends to the lists, never changes known totals, and keeps the invariant |
| Statement.ParsePageRecords | lib/parse_capitalone_pdf_statement.rb:106-141 | a page adds exactly the sign-split records of its lines, read under the period in force after the walk; with no period its lines hold no records under any period |
| Statement.InvWithPeriod | lib/parse_capitalone_pdf_statement.rb:127-130 | adopting the walk's period when none was known keeps the invariant, since nothing was recorded yet |
| Statement.ParsePages | lib/parse_capitalone_pdf_statement.rb:105-143 | the page loop keeps the period once known, only appends to the lists, never changes known totals, and keeps the invariant |
| Statement.ParsePagesPeriod | lib/parse_capitalone_pdf_statement.rb:105-131 | starting without a period, a parse that succeeds ends with the period of the first page whose walk decodes a header, and a walk that fails before any page decodes one fails the parse |
| Statement.ParsePagesRecords | lib/parse_capitalone_pdf_statement.rb:105-143 | the transactions and payments after all pages are the starting ones followed by the sign-split records of every page's lines, read under the final period |
| Statement.ParsePagesFees | lib/parse_capitalone_pdf_statement.rb:105-143 | the fee list after all pages is the starting one followed by the fees of every page's labels, read under the final period |
| Statement.CheckTotal | lib/parse_capitalone_pdf_statement.rb:223-231 | succeeds exactly when the summary figure exists and equals the sum; otherwise the error names the category and both figures, or says the summary is missing |
| Statement.Reconcile | lib/parse_capitalone_pdf_statement.rb:74-85 | succeeds exactly when a summary exists and all three sums match it; otherwise the first mismatching category, in the order payments, transactions, fees, is reported; the result lists are sorted permutations of the parsed ones |
| Statement.ParseStatement | lib/parse_capitalone_pdf_statement.rb:58-86 | every statement that parses is valid: sorted lists adding up to the summary, non-negative charges, negative payments each dated in the year its month resolves to in the period, and fees numbered from 1 on the period's last day |
| Statement.ParseStatementPeriod | lib/parse_capitalone_pdf_statement.rb:58-86 | a parsed statement's period is that of the first page whose walk decodes a header; a walk failing before that makes the statement fail |
| Statement.ParseStatementRecords | lib/parse_capitalone_pdf_statement.rb:58-86 | a parsed statement's transactions and payments are, up to order, the non-negative and negative records of all its lines read under its period |
| Statement.ParseStatementFees | lib/parse_capitalone_pdf_statement.rb:58-86 | a parsed statement's fees are, up to order, those its fee labels give under its period |
| Statement.SortedValid | lib/parse_capitalone_pdf_statement.rb:74-85 | sorting the lists of a state that kept the invariant and matches its summary yields a valid statement |
| Statement.NumberedSorted | lib/parse_capitalone_pdf_statement.rb:78 | fees, being numbered in the order they are added, are already in id order and the sort leaves them as they are |
| Statement.SortedUnchanged | lib/parse_capitalone_pdf_statement.rb:78 | sorting a list already in id order returns it unchanged |
| EarlyVariant.ParseEarly | parse_capitalone_pdf_statement.rb:5-16 | a nil column gives nothing; a column gives captures exactly when the script's pattern reads it so, and nothing only when no reading exists |
| EarlyVariant.EarlyLine | parse_capitalone_pdf_statement.rb:23-29 | a line gives at most one record on the first page and two on later ones, each with the shape of the script's pattern |
| EarlyVariant.FirstPageLine | parse_capitalone_pdf_statement.rb:23-24 | on the first page a line's records are what the pattern reads in its 72 characters from column 5 |
| EarlyVariant.LaterPageLine | parse_capitalone_pdf_statement.rb:25-29 | on a later page a line's records are the left column's reading followed by the right column's |
| EarlyVariant.FirstPageMatch | parse_capitalone_pdf_statement.rb:23-29 | a first-page line whose column from position 5 matches the pattern yields exactly that record |
| EarlyVariant.FirstPageNoMatch | parse_capitalone_pdf_statement.rb:23-29 | a first-page line that is too short or whose column matches no reading yields nothing |
| EarlyVariant.LeftColumnOnly | parse_capitalone_pdf_statement.rb:25-29 | on a later page, a matching left column with no matching right column yields exactly the left record |
| EarlyVariant.RightColumnOnly | parse_capitalone_pdf_statement.rb:25-29 | on a later page, a non-matching left column with a matching right column yields exactly the right record |
| EarlyVariant.NeitherColumn | parse_capitalone_pdf_statement.rb:25-29 | on a later page, a line with neither column matching yields nothing |
| EarlyVariant.EarlyPage | parse_capitalone_pdf_statement.rb:22-32 | a page gives at most two records per line, all well formed |
| EarlyVariant.EarlyPageAppend | parse_capitalone_pdf_statement.rb:22-32 | the records of a page are those of its first lines followed by those of the rest |
| EarlyVariant.BothColumns | parse_capitalone_pdf_statement.rb:26-29 | on a later page, a line whose two columns both match yields the left record and then the right one |
| EarlyVariant.IndentRejected | parse_capitalone_pdf_statement.rb:6 | an indented transaction line is rejected by the script's anchored pattern but read by the library's |
| EarlyVariant.EarlyPrinted | parse_capitalone_pdf_statement.rb:5-16 | a record printed from the start of the column is read back with the five captures as printed |
| EarlyVariant.LooseAmountWider | parse_capitalone_pdf_statement.rb:6 | the script's amount pattern accepts `$1.5`, which the library's does not |

## Left out

- Reading the PDF is not modelled (`PDF::Reader`, `page.text`, `split("\n")`, `page.walk`). A page is given as the argument lists of its `show_text` calls and its text already split into lines.
- The walker's `method_missing` and `respond_to?` mechanics are not modelled. Only the calls whose name contains `show_text` matter, and those are the calls a page is given with.
- Floating point is not modelled: amounts are exact integer cents. `to_f` and `round(2)` only matter past the precision of a double, far beyond statement figures.
- `Date.parse` is not fully modelled. Only its month lookup is: an unknown abbreviation fails. A day that does not exist in its month (say `FEB 30`) is kept as printed, not rejected.
- The JSON output (`to_json`), the command-line wrapper in bin/ and capitalone_pdf_to_json.rb, and the early script's printing (`puts`, `p`) are not part of this model.
- Ledger.SortById: states a sorted permutation only. Ruby's `sort_by` is not stable, so the order among records with equal ids is not pinned down; the model uses insertion sort as one admissible order.
- Amount.ParseAmount: requires its argument to be an amount token. Every caller passes a match of `AMOUNT_REGEX`, so `parse_amount` on any other text is not modelled.
- The message text of the raised errors is not modelled. The error datatype carries the same facts: the category and both figures, or the month that failed.
- TransactionLine.MatchTransactionIff: `^`, `$` and `.` are read as whole-string anchors and any character. This holds because each line comes from `split("\n")` and has no newline inside.
