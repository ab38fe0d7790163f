/** The billing-period header `MMM. DD - MMM. DD, YYYY`
    (`DATE_REGEX`, lib/parse_capitalone_pdf_statement.rb:39), its decoding into
    the statement year and the December-from-previous-year flag (lines
    116-121), the walk over a page's text-drawing calls that finds it (lines
    107-131), and the year a transaction's month resolves to (line 208). */
module BillingPeriod {
  import opened Results
  import opened Text

  /** A calendar date. The day is kept as printed: `Date.parse`'s rejection
      of impossible days is not modelled. */
  datatype Date = Date(year: int, month: nat, day: nat)

  /** A decoded header: the printed year, whether the period starts in the
      previous year's December, and the first and last day of the period. */
  datatype Period = Period(year: int, decFromPrevYear: bool, start: Date, end: Date)

  /** The three-letter abbreviation of month `m`, as statements show it. */
  function MonthName(m: nat): (name: string)
    requires 1 <= m <= 12
    ensures |name| == 3
  {
    ["JAN", "FEB", "MAR", "APR", "MAY", "JUN", "JUL", "AUG", "SEP", "OCT", "NOV", "DEC"][m - 1]
  }

  /** `abbr.upcase == name` for a three-letter upper-case `name`. */
  predicate SameAbbrev(abbr: string, name: string)
    requires |name| == 3
  {
    |abbr| == 3 && UpcaseChar(abbr[0]) == name[0] && UpcaseChar(abbr[1]) == name[1] && UpcaseChar(abbr[2]) == name[2]
  }

  /** The month `Date.parse` reads from a three-letter abbreviation, whatever
      its case; `None` where it would raise. */
  function MonthNumber(abbr: string): (r: Option<nat>)
    ensures r.Some? ==> 1 <= r.value <= 12 && SameAbbrev(abbr, MonthName(r.value))
    ensures r.None? <==> forall m :: 1 <= m <= 12 ==> !SameAbbrev(abbr, MonthName(m))
  {
    if |abbr| != 3 then None
    else
      var u := [UpcaseChar(abbr[0]), UpcaseChar(abbr[1]), UpcaseChar(abbr[2])];
      if u == "JAN" then Some(1)
      else if u == "FEB" then Some(2)
      else if u == "MAR" then Some(3)
      else if u == "APR" then Some(4)
      else if u == "MAY" then Some(5)
      else if u == "JUN" then Some(6)
      else if u == "JUL" then Some(7)
      else if u == "AUG" then Some(8)
      else if u == "SEP" then Some(9)
      else if u == "OCT" then Some(10)
      else if u == "NOV" then Some(11)
      else if u == "DEC" then Some(12)
      else None
  }

  /** The length of every text `DATE_REGEX` matches. */
  const HEADER_LENGTH: nat := 23

  /** `DATE_REGEX`, `(\w{3})\. (\d\d) - (\w{3})\. (\d\d), (\d{4})`, matched
      against all of `w`; every match has the same length. */
  predicate IsHeaderText(w: string) {
    && |w| == HEADER_LENGTH
    && IsWordChar(w[0]) && IsWordChar(w[1]) && IsWordChar(w[2])
    && w[3] == '.' && w[4] == ' '
    && IsDigit(w[5]) && IsDigit(w[6])
    && w[7] == ' ' && w[8] == '-' && w[9] == ' '
    && IsWordChar(w[10]) && IsWordChar(w[11]) && IsWordChar(w[12])
    && w[13] == '.' && w[14] == ' '
    && IsDigit(w[15]) && IsDigit(w[16])
    && w[17] == ',' && w[18] == ' '
    && IsDigit(w[19]) && IsDigit(w[20]) && IsDigit(w[21]) && IsDigit(w[22])
  }

  predicate HeaderAt(s: string, j: nat) {
    j + HEADER_LENGTH <= |s| && IsHeaderText(s[j..j + HEADER_LENGTH])
  }

  /** The leftmost position at or after `i` where `DATE_REGEX` matches `s`. */
  function FindHeaderFrom(s: string, i: nat): (r: Option<nat>)
    ensures r.Some? ==> i <= r.value && HeaderAt(s, r.value)
    ensures r.Some? ==> forall j :: i <= j < r.value ==> !HeaderAt(s, j)
    ensures r.None? ==> forall j :: i <= j ==> !HeaderAt(s, j)
    decreases |s| - i
  {
    if i + HEADER_LENGTH > |s| then None
    else if IsHeaderText(s[i..i + HEADER_LENGTH]) then Some(i)
    else FindHeaderFrom(s, i + 1)
  }

  /** `str =~ DATE_REGEX`: the matched header text, if any. */
  function FindHeader(s: string): (r: Option<string>)
    ensures r.Some? ==> IsHeaderText(r.value) && exists j: nat :: HeaderAt(s, j) && s[j..j + HEADER_LENGTH] == r.value
    ensures r.None? <==> forall j: nat :: !HeaderAt(s, j)
  {
    match FindHeaderFrom(s, 0)
    case None => None
    case Some(j) => Some(s[j..j + HEADER_LENGTH])
  }

  /** The five groups `DATE_REGEX` captures, the numbers read with `to_i`. */
  datatype HeaderFields = HeaderFields(startMonth: string, startDay: nat, endMonth: string, endDay: nat, year: nat)

  function HeaderFieldsOf(w: string): HeaderFields
    requires IsHeaderText(w)
  {
    HeaderFields(w[0..3], DigitsValue(w[5..7]), w[10..13], DigitsValue(w[15..17]), DigitsValue(w[19..23]))
  }

  /** Decoding the captured header (lines 117-120): the offset is one exactly
      when the period runs from December into January; the start date takes
      the year minus the offset, the end date the printed year. An unknown
      month abbreviation makes `Date.parse` raise, the start date's first. */
  function DecodeHeader(h: HeaderFields): (r: Result<Period>)
    ensures r.Err? <==> MonthNumber(h.startMonth).None? || MonthNumber(h.endMonth).None?
    ensures r.Ok? ==> (r.value.decFromPrevYear <==> r.value.start.month == 12 && r.value.end.month == 1)
    ensures r.Ok? ==> r.value.end.year == r.value.year == h.year
    ensures r.Ok? ==> r.value.start.year == if r.value.decFromPrevYear then h.year - 1 else h.year
    ensures r.Ok? ==> r.value.start.day == h.startDay && r.value.end.day == h.endDay
  {
    var offset := if SameAbbrev(h.startMonth, "DEC") && SameAbbrev(h.endMonth, "JAN") then 1 else 0;
    match MonthNumber(h.startMonth)
    case None => Err(InvalidDate(h.startMonth))
    case Some(sm) =>
      match MonthNumber(h.endMonth)
      case None => Err(InvalidDate(h.endMonth))
      case Some(em) =>
        Ok(Period(h.year, offset == 1, Date(h.year - offset, sm, h.startDay), Date(h.year, em, h.endDay)))
  }

  /** The header as a statement prints it. */
  function FormatHeader(startMonth: nat, startDay: nat, endMonth: nat, endDay: nat, year: nat): (w: string)
    requires 1 <= startMonth <= 12 && 1 <= endMonth <= 12
    requires startDay < 100 && endDay < 100 && year < 10000
    ensures IsHeaderText(w)
  {
    var m1, d1 := MonthName(startMonth), PadDigits(startDay, 2);
    var m2, d2 := MonthName(endMonth), PadDigits(endDay, 2);
    var y := PadDigits(year, 4);
    MonthNamesAreUpper(startMonth);
    MonthNamesAreUpper(endMonth);
    HeaderTextOf(m1, d1, m2, d2, y);
    [m1[0], m1[1], m1[2], '.', ' ', d1[0], d1[1], ' ', '-', ' ',
     m2[0], m2[1], m2[2], '.', ' ', d2[0], d2[1], ',', ' ', y[0], y[1], y[2], y[3]]
  }

  lemma HeaderTextOf(m1: string, d1: string, m2: string, d2: string, y: string)
    requires |m1| == 3 && |m2| == 3 && |d1| == 2 && |d2| == 2 && |y| == 4
    requires forall k :: 0 <= k < 3 ==> IsUpper(m1[k]) && IsUpper(m2[k])
    requires AllDigits(d1) && AllDigits(d2) && AllDigits(y)
    ensures IsHeaderText([m1[0], m1[1], m1[2], '.', ' ', d1[0], d1[1], ' ', '-', ' ',
                          m2[0], m2[1], m2[2], '.', ' ', d2[0], d2[1], ',', ' ', y[0], y[1], y[2], y[3]])
  {
    assert IsUpper(m1[0]) && IsUpper(m1[1]) && IsUpper(m1[2]);
    assert IsUpper(m2[0]) && IsUpper(m2[1]) && IsUpper(m2[2]);
    assert IsDigit(d1[0]) && IsDigit(d1[1]) && IsDigit(d2[0]) && IsDigit(d2[1]);
    assert IsDigit(y[0]) && IsDigit(y[1]) && IsDigit(y[2]) && IsDigit(y[3]);
  }

  lemma MonthNamesAreUpper(m: nat)
    requires 1 <= m <= 12
    ensures forall k :: 0 <= k < 3 ==> IsUpper(MonthName(m)[k])
    ensures SameAbbrev(MonthName(m), MonthName(m))
  {
  }

  /** The regex captures of a printed header are what was printed. */
  lemma CaptureFormatHeader(startMonth: nat, startDay: nat, endMonth: nat, endDay: nat, year: nat)
    requires 1 <= startMonth <= 12 && 1 <= endMonth <= 12
    requires startDay < 100 && endDay < 100 && year < 10000
    ensures HeaderFieldsOf(FormatHeader(startMonth, startDay, endMonth, endDay, year))
      == HeaderFields(MonthName(startMonth), startDay, MonthName(endMonth), endDay, year)
  {
    var m1, d1 := MonthName(startMonth), PadDigits(startDay, 2);
    var m2, d2 := MonthName(endMonth), PadDigits(endDay, 2);
    var y := PadDigits(year, 4);
    FieldsOfDisplay(FormatHeader(startMonth, startDay, endMonth, endDay, year), m1, d1, m2, d2, y);
  }

  /** The captures of a header assembled from its five printed parts. */
  lemma FieldsOfDisplay(w: string, m1: string, d1: string, m2: string, d2: string, y: string)
    requires IsHeaderText(w)
    requires |m1| == 3 && |m2| == 3 && |d1| == 2 && |d2| == 2 && |y| == 4
    requires w == [m1[0], m1[1], m1[2], '.', ' ', d1[0], d1[1], ' ', '-', ' ',
                   m2[0], m2[1], m2[2], '.', ' ', d2[0], d2[1], ',', ' ', y[0], y[1], y[2], y[3]]
    ensures HeaderFieldsOf(w) == HeaderFields(m1, DigitsValue(w[5..7]), m2, DigitsValue(w[15..17]), DigitsValue(w[19..23]))
    ensures w[5..7] == d1 && w[15..17] == d2 && w[19..23] == y
  {
    assert w[0..3] == [m1[0], m1[1], m1[2]] == m1;
    assert w[10..13] == [m2[0], m2[1], m2[2]] == m2;
    assert w[5..7] == [d1[0], d1[1]] == d1;
    assert w[15..17] == [d2[0], d2[1]] == d2;
    assert w[19..23] == [y[0], y[1], y[2], y[3]] == y;
  }

  /** Decoding a printed header gives back the printed dates, with the
      start year moved back exactly for a December-to-January period. */
  lemma DecodeFormatHeader(startMonth: nat, startDay: nat, endMonth: nat, endDay: nat, year: nat)
    requires 1 <= startMonth <= 12 && 1 <= endMonth <= 12
    requires startDay < 100 && endDay < 100 && year < 10000
    ensures var crosses := startMonth == 12 && endMonth == 1;
      DecodeHeader(HeaderFieldsOf(FormatHeader(startMonth, startDay, endMonth, endDay, year)))
        == Ok(Period(year, crosses, Date(if crosses then year - 1 else year, startMonth, startDay),
                     Date(year, endMonth, endDay)))
  {
    CaptureFormatHeader(startMonth, startDay, endMonth, endDay, year);
    DecodeNamed(startMonth, startDay, endMonth, endDay, year);
  }

  /** Decoding captures that name months by their printed abbreviations. */
  lemma DecodeNamed(startMonth: nat, startDay: nat, endMonth: nat, endDay: nat, year: nat)
    requires 1 <= startMonth <= 12 && 1 <= endMonth <= 12
    ensures var crosses := startMonth == 12 && endMonth == 1;
      DecodeHeader(HeaderFields(MonthName(startMonth), startDay, MonthName(endMonth), endDay, year))
        == Ok(Period(year, crosses, Date(if crosses then year - 1 else year, startMonth, startDay),
                     Date(year, endMonth, endDay)))
  {
    MonthNumberOfName(startMonth);
    MonthNumberOfName(endMonth);
  }

  /** Reading back a printed month abbreviation gives the month. */
  lemma MonthNumberOfName(m: nat)
    requires 1 <= m <= 12
    ensures MonthNumber(MonthName(m)) == Some(m)
  {
    MonthNamesAreUpper(m);
  }

  /** One text-drawing call seen by the walker (`args.any? {...}`, line 116):
      the header found in the first of its arguments that contains one. */
  function CallHeader(args: seq<string>): (r: Option<string>)
    ensures r.Some? ==> IsHeaderText(r.value)
    ensures r.None? <==> forall k :: 0 <= k < |args| ==> FindHeader(args[k]).None?
  {
    if |args| == 0 then None
    else if FindHeader(args[0]).Some? then FindHeader(args[0])
    else CallHeader(args[1..])
  }

  /** The walk of one page (lines 108-125): every call whose text holds a
      header decodes it, so a later header overwrites an earlier one and an
      undecodable one raises. `found` is what the walk has decoded so far. */
  function Walk(calls: seq<seq<string>>, found: Option<Period>): (r: Result<Option<Period>>)
    ensures r == Ok(found) <== forall k :: 0 <= k < |calls| ==> CallHeader(calls[k]).None?
    ensures r.Ok? && r.value.None? ==> found.None?
    decreases |calls|
  {
    if |calls| == 0 then Ok(found)
    else
      var next :- Visit(calls[0], found);
      Walk(calls[1..], next)
  }

  /** What the walk knows after one call. */
  function Visit(args: seq<string>, found: Option<Period>): Result<Option<Period>> {
    match CallHeader(args)
    case None => Ok(found)
    case Some(w) =>
      var p :- DecodeHeader(HeaderFieldsOf(w));
      Ok(Some(p))
  }

  /** The header that ends a page's walk is the last one drawn. */
  lemma {:induction false} LastHeaderWins(calls: seq<seq<string>>, found: Option<Period>, args: seq<string>)
    requires Walk(calls, found).Ok?
    requires CallHeader(args).Some?
    ensures DecodeHeader(HeaderFieldsOf(CallHeader(args).value)).Ok? ==>
      Walk(calls + [args], found) == Ok(Some(DecodeHeader(HeaderFieldsOf(CallHeader(args).value)).value))
    ensures DecodeHeader(HeaderFieldsOf(CallHeader(args).value)).Err? ==> Walk(calls + [args], found).Err?
    decreases |calls|
  {
    if |calls| == 0 {
      assert calls + [args] == [args];
      assert [args][1..] == [];
    } else {
      assert (calls + [args])[0] == calls[0];
      assert (calls + [args])[1..] == calls[1..] + [args];
      LastHeaderWins(calls[1..], Visit(calls[0], found).value, args);
    }
  }

  /** Walking two runs of calls is walking the first, then the second from
      what the first decoded; an undecodable header in the first run fails the
      whole walk, whatever headers follow it. */
  lemma {:induction false} WalkAppend(a: seq<seq<string>>, b: seq<seq<string>>, found: Option<Period>)
    ensures Walk(a, found).Err? ==> Walk(a + b, found) == Walk(a, found)
    ensures Walk(a, found).Ok? ==> Walk(a + b, found) == Walk(b, Walk(a, found).value)
    decreases |a|
  {
    if |a| == 0 {
      assert a + b == b;
    } else {
      assert (a + b)[0] == a[0];
      assert (a + b)[1..] == a[1..] + b;
      if Visit(a[0], found).Ok? {
        WalkAppend(a[1..], b, Visit(a[0], found).value);
      }
    }
  }

  /** So a header whose month is unknown, drawn after the walk so far
      succeeded, fails the page whatever is drawn after it. */
  lemma BadHeaderFails(calls: seq<seq<string>>, found: Option<Period>, args: seq<string>, rest: seq<seq<string>>)
    requires Walk(calls, found).Ok?
    requires CallHeader(args).Some? && DecodeHeader(HeaderFieldsOf(CallHeader(args).value)).Err?
    ensures Walk(calls + [args] + rest, found) == Err(DecodeHeader(HeaderFieldsOf(CallHeader(args).value)).error)
  {
    WalkAppend(calls, [args] + rest, found);
    assert calls + [args] + rest == calls + ([args] + rest);
    assert ([args] + rest)[0] == args && ([args] + rest)[1..] == rest;
  }

  /** The year a transaction dated in `month` belongs to (line 208). */
  function TransactionYear(month: string, p: Period): int {
    if SameAbbrev(month, "DEC") && p.decFromPrevYear then p.year - 1 else p.year
  }

  /** A decoded period places a December transaction of a year-crossing
      period in the start date's year and every other transaction in the end
      date's year; the year moves back exactly in that one case. */
  lemma TransactionYearInPeriod(h: HeaderFields, month: string)
    requires DecodeHeader(h).Ok?
    ensures var p := DecodeHeader(h).value;
      && TransactionYear(month, p) == (if SameAbbrev(month, "DEC") && p.decFromPrevYear then p.start.year else p.end.year)
      && (TransactionYear(month, p) == p.year - 1 <==> SameAbbrev(month, "DEC") && p.decFromPrevYear)
  {
  }

  /** The header of a statement whose period runs from December 15 to
      January 14: the year printed is the January one. */
  lemma CrossingHeaderExample()
    ensures IsHeaderText("DEC. 15 - JAN. 14, 2024")
    ensures DecodeHeader(HeaderFieldsOf("DEC. 15 - JAN. 14, 2024"))
      == Ok(Period(2024, true, Date(2023, 12, 15), Date(2024, 1, 14)))
    ensures TransactionYear("DEC", Period(2024, true, Date(2023, 12, 15), Date(2024, 1, 14))) == 2023
    ensures TransactionYear("JAN", Period(2024, true, Date(2023, 12, 15), Date(2024, 1, 14))) == 2024
  {
    CrossingHeaderCaptures();
    MonthNumberOfName(12);
    MonthNumberOfName(1);
  }

  lemma CrossingHeaderCaptures()
    ensures IsHeaderText("DEC. 15 - JAN. 14, 2024")
    ensures HeaderFieldsOf("DEC. 15 - JAN. 14, 2024") == HeaderFields("DEC", 15, "JAN", 14, 2024)
  {
    CrossingHeaderText();
    var w := "DEC. 15 - JAN. 14, 2024";
    assert w[0..3] == "DEC" && w[10..13] == "JAN";
    assert w[5..7] == "15" && w[15..17] == "14" && w[19..23] == "2024";
    TwoDigits('1', '5');
    TwoDigits('1', '4');
    FourDigits('2', '0', '2', '4');
  }

  lemma CrossingHeaderText()
    ensures IsHeaderText("DEC. 15 - JAN. 14, 2024")
  {
    var w := "DEC. 15 - JAN. 14, 2024";
    assert w[0] == 'D' && w[1] == 'E' && w[2] == 'C' && w[3] == '.' && w[4] == ' ';
    assert w[5] == '1' && w[6] == '5' && w[7] == ' ' && w[8] == '-' && w[9] == ' ';
    assert w[10] == 'J' && w[11] == 'A' && w[12] == 'N' && w[13] == '.' && w[14] == ' ';
    assert w[15] == '1' && w[16] == '4' && w[17] == ',' && w[18] == ' ';
    assert w[19] == '2' && w[20] == '0' && w[21] == '2' && w[22] == '4';
  }

  lemma TwoDigits(a: char, b: char)
    requires IsDigit(a) && IsDigit(b)
    ensures DigitsValue([a, b]) == 10 * (a as int - '0' as int) + (b as int - '0' as int)
  {
    assert DigitsValue([a]) == a as int - '0' as int by {
      assert [a][..0] == [];
    }
    assert [a, b][..1] == [a];
  }

  lemma FourDigits(a: char, b: char, c: char, d: char)
    requires IsDigit(a) && IsDigit(b) && IsDigit(c) && IsDigit(d)
    ensures DigitsValue([a, b, c, d])
      == 1000 * (a as int - '0' as int) + 100 * (b as int - '0' as int) + 10 * (c as int - '0' as int) + (d as int - '0' as int)
  {
    assert [a, b, c, d][..3] == [a, b, c];
    assert [a, b, c][..2] == [a, b];
    TwoDigits(a, b);
  }
}
