/** Recognising a transaction line: `TRANSACTION_REGEX`
    (lib/parse_capitalone_pdf_statement.rb:44-46) and the earlier pattern of
    parse_capitalone_pdf_statement.rb:6. Both have the shape
    `<id> +<dd> <MMM> <description> +<amount> *` and at most one way to match
    a line: the amount is the last space-free word, and the description ends
    with the word before it. `MatchTransaction` finds that decomposition
    directly; `Matches` states it as the regex does, and the two are proved
    to agree on every line. */
module TransactionLine {
  import opened Results
  import opened Text
  import Amount

  /** Which of the two versions of the pattern applies. */
  datatype Dialect =
      /** The library's pattern: leading spaces allowed, the amount an
          `AMOUNT_REGEX` token. */
    | Current
      /** The earlier script's pattern: anchored at column 0, the amount
          `\(?\$[0-9,.]+\)?`. */
    | Early

  /** The five groups a transaction pattern captures: id (the script calls it
      number), day, month, description and amount, as text. */
  datatype Fields = Fields(id: string, day: string, month: string, desc: string, amount: string)

  /** `\(?\$[0-9,.]+\)?` matched against all of `t`. */
  predicate IsLooseAmount(t: string) {
    var m := Amount.Figure(t);
    && |m| >= 2
    && m[0] == '$'
    && forall k :: 1 <= k < |m| ==> IsDigit(m[k]) || m[k] == ',' || m[k] == '.'
  }

  predicate AmountOk(d: Dialect, t: string) {
    match d
    case Current => Amount.IsAmountToken(t)
    case Early => IsLooseAmount(t)
  }

  lemma AmountOkShape(d: Dialect, t: string)
    requires AmountOk(d, t)
    ensures t != [] && NoSpace(t)
  {
    if d == Current {
      Amount.TokenShape(t);
    } else {
      var a := Amount.OpenLength(t);
      var m := Amount.Figure(t);
      forall k | 0 <= k < |t|
        ensures t[k] != ' '
      {
        if a <= k < |t| - Amount.CloseLength(t) {
          assert t[k] == m[k - a];
        }
      }
    }
  }

  /** What each captured group must look like, the amount's form aside: a
      run of digits, two digits, three capitals, a description of at least two
      characters ending in a non-space, and a space-free amount word. */
  predicate Shaped(f: Fields) {
    && |f.id| >= 1 && AllDigits(f.id)
    && |f.day| == 2 && AllDigits(f.day)
    && |f.month| == 3 && IsUpper(f.month[0]) && IsUpper(f.month[1]) && IsUpper(f.month[2])
    && |f.desc| >= 2 && f.desc[|f.desc| - 1] != ' '
    && f.amount != [] && NoSpace(f.amount)
  }

  /** What each captured group must look like in dialect `d`. */
  predicate WellFormed(d: Dialect, f: Fields) {
    Shaped(f) && AmountOk(d, f.amount)
  }

  /** The line the pattern reads as `f`, with `lead` spaces before the id,
      `gap` after it, `pad` between description and amount and `trail` after
      the amount. */
  function Render(f: Fields, lead: nat, gap: nat, pad: nat, trail: nat): string {
    Spaces(lead) + f.id + Spaces(gap) + (f.day + " " + f.month + " " + (f.desc + Spaces(pad) + f.amount + Spaces(trail)))
  }

  /** `line` is `f` laid out with at least one space after the id and before
      the amount, and no leading spaces when `anchored`. */
  ghost predicate Laid(line: string, f: Fields, anchored: bool) {
    exists lead: nat, gap: nat, pad: nat, trail: nat ::
      && (anchored ==> lead == 0) && gap >= 1 && pad >= 1
      && line == Render(f, lead, gap, pad, trail)
  }

  /** The regex's own reading: `line` matches the pattern of dialect `d` with
      captures `f`. */
  ghost predicate Matches(d: Dialect, line: string, f: Fields) {
    WellFormed(d, f) && Laid(line, f, d == Early)
  }

  /** `<dd> <MMM> ` as a whole. */
  predicate DayMonth(s: string) {
    && |s| == 7
    && IsDigit(s[0]) && IsDigit(s[1]) && s[2] == ' '
    && IsUpper(s[3]) && IsUpper(s[4]) && IsUpper(s[5]) && s[6] == ' '
  }

  /** Where `^ *(\d+) +` ends: `lead` spaces, an id of `idLen` digits and a
      `gap` of spaces, each run as long as it can be. */
  datatype HeadCuts = HeadCuts(lead: nat, idLen: nat, gap: nat)

  /** `line` opens with `a` spaces, `n` digits and `b` spaces. */
  predicate HeadLaid(line: string, a: nat, n: nat, b: nat) {
    && a + n + b <= |line|
    && line[..a] == Spaces(a)
    && AllDigits(line[a..a + n])
    && line[a + n..a + n + b] == Spaces(b)
  }

  function Head(line: string): (h: HeadCuts)
    ensures h.lead + h.idLen + h.gap <= |line|
  {
    var a := SpacesFrom(line, 0);
    var n := DigitsFrom(line, a);
    var b := SpacesFrom(line, a + n);
    HeadCuts(a, n, b)
  }

  /** The three runs `Head` measures lie as stated. */
  lemma HeadRuns(line: string)
    ensures var h := Head(line); HeadLaid(line, h.lead, h.idLen, h.gap)
  {
    var a := SpacesFrom(line, 0);
    var n := DigitsFrom(line, a);
    var b := SpacesFrom(line, a + n);
    SliceSpaces(line, 0, a);
    SliceSpaces(line, a + n, a + n + b);
  }

  lemma HeadOf(line: string, a: nat, n: nat, b: nat)
    requires a + n + b < |line|
    requires line[..a] == Spaces(a) && AllDigits(line[a..a + n]) && line[a + n..a + n + b] == Spaces(b)
    requires n >= 1 && b >= 1 && line[a + n + b] != ' '
    ensures Head(line) == HeadCuts(a, n, b)
  {
    assert forall k :: 0 <= k < a ==> line[k] == line[..a][k];
    assert forall k :: a <= k < a + n ==> line[k] == line[a..a + n][k - a];
    assert forall k :: a + n <= k < a + n + b ==> line[k] == line[a + n..a + n + b][k - a - n];
    SpacesFromOf(line, 0, a);
    DigitsFromOf(line, a, n);
    SpacesFromOf(line, a + n, b);
  }

  /** Where ` +(<amount>) *$` starts, read from the end of the line: the
      description ends at `descEnd`, followed by `pad` spaces, an amount word
      of `amountLen` characters and `trail` spaces. */
  datatype TailCuts = TailCuts(descEnd: nat, pad: nat, amountLen: nat, trail: nat)

  /** `line` ends, from position `q`, with `c` spaces, a space-free word of
      `w` characters and `e` spaces, and the word is preceded by a non-space
      and at least one space unless `q` is 0. */
  predicate TailLaid(line: string, q: nat, c: nat, w: nat, e: nat) {
    && q + c + w + e == |line|
    && line[q..q + c] == Spaces(c)
    && NoSpace(line[q + c..q + c + w])
    && line[q + c + w..] == Spaces(e)
    && (q > 0 ==> c >= 1 && w >= 1 && line[q - 1] != ' ')
  }

  function Tail(line: string): (t: TailCuts)
    ensures t.descEnd + t.pad + t.amountLen + t.trail == |line|
  {
    var e := SpacesBefore(line, |line|);
    var w := WordBefore(line, |line| - e);
    var c := SpacesBefore(line, |line| - e - w);
    TailCuts(|line| - e - w - c, c, w, e)
  }

  /** The three runs `Tail` measures from the end of the line lie as stated. */
  lemma TailRuns(line: string)
    ensures var t := Tail(line); TailLaid(line, t.descEnd, t.pad, t.amountLen, t.trail)
  {
    var e := SpacesBefore(line, |line|);
    var w := WordBefore(line, |line| - e);
    var c := SpacesBefore(line, |line| - e - w);
    var q := |line| - e - w - c;
    assert Tail(line) == TailCuts(q, c, w, e);
    if q > 0 {
      var j := |line| - e;
      assert line[j - 1] != ' ';
      assert line[j - w - 1] == ' ';
      assert line[q - 1] != ' ';
    }
    RunsLaid(line, q, c, w, e);
  }

  /** Three runs measured character by character lie as `TailLaid` states. */
  lemma RunsLaid(line: string, q: nat, c: nat, w: nat, e: nat)
    requires q + c + w + e == |line|
    requires forall k :: q <= k < q + c ==> line[k] == ' '
    requires forall k :: q + c <= k < q + c + w ==> line[k] != ' '
    requires forall k :: q + c + w <= k < |line| ==> line[k] == ' '
    requires q > 0 ==> c >= 1 && w >= 1 && line[q - 1] != ' '
    ensures TailLaid(line, q, c, w, e)
  {
    SliceSpaces(line, q, q + c);
    SliceSpaces(line, q + c + w, |line|);
    assert line[q + c + w..] == line[q + c + w..|line|];
    SliceNoSpace(line, q + c, q + c + w);
  }

  lemma SliceNoSpace(s: string, i: nat, j: nat)
    requires i <= j <= |s|
    requires forall k :: i <= k < j ==> s[k] != ' '
    ensures NoSpace(s[i..j])
  {
    var word := s[i..j];
    forall k | 0 <= k < |word|
      ensures word[k] != ' '
    {
      assert word[k] == s[i + k];
    }
  }

  lemma TailOf(line: string, q: nat, c: nat, w: nat, e: nat)
    requires q + c + w + e == |line|
    requires q > 0 && line[q - 1] != ' ' && c >= 1 && w >= 1
    requires line[q..q + c] == Spaces(c) && NoSpace(line[q + c..q + c + w]) && line[q + c + w..] == Spaces(e)
    ensures Tail(line) == TailCuts(q, c, w, e)
  {
    assert forall k :: q <= k < q + c ==> line[k] == line[q..q + c][k - q];
    assert forall k :: q + c <= k < q + c + w ==> line[k] == line[q + c..q + c + w][k - q - c];
    assert forall k :: q + c + w <= k < |line| ==> line[k] == line[q + c + w..][k - q - c - w];
    SpacesBeforeOf(line, |line|, e);
    WordBeforeOf(line, q + c + w, w);
    SpacesBeforeOf(line, q + c, c);
  }

  /** The five captures, cut from `line` at the given positions: the id
      starts at `a` and has `n` digits, the day starts `b` spaces later, the
      description runs to `q`, and the amount of `w` characters starts `c`
      spaces after it. */
  function Cut(line: string, a: nat, n: nat, b: nat, q: nat, c: nat, w: nat): Fields
    requires a + n + b + 7 <= q && q + c + w <= |line|
  {
    var p := a + n + b;
    Fields(line[a..a + n], line[p..p + 2], line[p + 3..p + 6], line[p + 7..q], line[q + c..q + c + w])
  }

  /** The captures of `<id> +<dd> <MMM> <description> +<word> *` on `line`,
      with no leading spaces when `anchored`, before the word is checked to be
      an amount. */
  function Shape(line: string, anchored: bool): Option<Fields> {
    ShapeWith(line, anchored, Head(line), Tail(line))
  }

  /** `Shape` once the runs at either end of `line` are measured. */
  function ShapeWith(line: string, anchored: bool, h: HeadCuts, t: TailCuts): Option<Fields>
    requires t.descEnd + t.pad + t.amountLen + t.trail == |line|
  {
    var p := h.lead + h.idLen + h.gap;
    var q := t.descEnd;
    if h.idLen == 0 || h.gap == 0 || (anchored && h.lead != 0) || q < p + 9 || !DayMonth(line[p..p + 7]) then None
    else Some(Cut(line, h.lead, h.idLen, h.gap, q, t.pad, t.amountLen))
  }

  /** The captures of the pattern of dialect `d` on `line`, if it matches. */
  function MatchTransaction(d: Dialect, line: string): Option<Fields> {
    match Shape(line, d == Early)
    case None => None
    case Some(f) => if AmountOk(d, f.amount) then Some(f) else None
  }

  /** What `Shape` checks before cutting is enough for the line to have the
      shape. */
  lemma ShapeCutsLaid(line: string, anchored: bool, h: HeadCuts, t: TailCuts)
    requires h == Head(line) && t == Tail(line)
    requires h.idLen >= 1 && h.gap >= 1 && (anchored ==> h.lead == 0) && h.lead + h.idLen + h.gap + 9 <= t.descEnd
    requires DayMonth(line[h.lead + h.idLen + h.gap..h.lead + h.idLen + h.gap + 7])
    ensures var f := Cut(line, h.lead, h.idLen, h.gap, t.descEnd, t.pad, t.amountLen);
      Shaped(f) && Laid(line, f, anchored)
  {
    HeadRuns(line);
    TailRuns(line);
    CutsLaid(line, anchored, h.lead, h.idLen, h.gap, t.descEnd, t.pad, t.amountLen, t.trail);
  }

  /** What `Shape` checked when it cuts a line. */
  lemma ShapeSome(line: string, anchored: bool)
    requires Shape(line, anchored).Some?
    ensures var h, t := Head(line), Tail(line);
      var p := h.lead + h.idLen + h.gap;
      && h.idLen >= 1 && h.gap >= 1 && (anchored ==> h.lead == 0) && p + 9 <= t.descEnd
      && DayMonth(line[p..p + 7])
      && Shape(line, anchored).value == Cut(line, h.lead, h.idLen, h.gap, t.descEnd, t.pad, t.amountLen)
  {
    ShapeWithSome(line, anchored, Head(line), Tail(line));
  }

  lemma ShapeWithSome(line: string, anchored: bool, h: HeadCuts, t: TailCuts)
    requires t.descEnd + t.pad + t.amountLen + t.trail == |line|
    requires ShapeWith(line, anchored, h, t).Some?
    ensures var p := h.lead + h.idLen + h.gap;
      && h.idLen >= 1 && h.gap >= 1 && (anchored ==> h.lead == 0) && p + 9 <= t.descEnd
      && DayMonth(line[p..p + 7])
      && ShapeWith(line, anchored, h, t).value == Cut(line, h.lead, h.idLen, h.gap, t.descEnd, t.pad, t.amountLen)
  {
  }

  lemma CutsLaid(line: string, anchored: bool, a: nat, n: nat, b: nat, q: nat, c: nat, w: nat, e: nat)
    requires a + n + b + 9 <= q
    requires n >= 1 && b >= 1 && (anchored ==> a == 0)
    requires HeadLaid(line, a, n, b) && TailLaid(line, q, c, w, e)
    requires DayMonth(line[a + n + b..a + n + b + 7])
    ensures Shaped(Cut(line, a, n, b, q, c, w)) && Laid(line, Cut(line, a, n, b, q, c, w), anchored)
  {
    var f := Cut(line, a, n, b, q, c, w);
    CutShaped(line, a, n, b, q, c, w, e);
    Assemble(line, a, n, b, q, c, w, e);
    LaidOf(f, anchored, a, b, c, e);
  }

  /** The pieces cut at positions where the runs lie have the shape. */
  lemma CutShaped(line: string, a: nat, n: nat, b: nat, q: nat, c: nat, w: nat, e: nat)
    requires a + n + b + 9 <= q && n >= 1
    requires HeadLaid(line, a, n, b) && TailLaid(line, q, c, w, e)
    requires DayMonth(line[a + n + b..a + n + b + 7])
    ensures Shaped(Cut(line, a, n, b, q, c, w))
  {
    var p := a + n + b;
    var f := Cut(line, a, n, b, q, c, w);
    DayMonthFields(line, p);
    assert f.desc[|f.desc| - 1] == line[q - 1];
  }

  /** The day and month of a `<dd> <MMM> ` slice. */
  lemma DayMonthFields(line: string, p: nat)
    requires p + 7 <= |line| && DayMonth(line[p..p + 7])
    ensures var day, month := line[p..p + 2], line[p + 3..p + 6];
      && |day| == 2 && AllDigits(day)
      && |month| == 3 && IsUpper(month[0]) && IsUpper(month[1]) && IsUpper(month[2])
  {
    var dm := line[p..p + 7];
    assert line[p..p + 2][0] == dm[0] && line[p..p + 2][1] == dm[1];
    assert line[p + 3..p + 6][0] == dm[3] && line[p + 3..p + 6][1] == dm[4] && line[p + 3..p + 6][2] == dm[5];
  }

  lemma DayMonthParts(dm: string)
    requires DayMonth(dm)
    ensures dm == dm[..2] + " " + dm[3..6] + " "
  {
  }

  /** Cutting `line` at the positions `Shape` found gives it back as `Render`
      of the pieces. */
  lemma Assemble(line: string, a: nat, n: nat, b: nat, q: nat, c: nat, w: nat, e: nat)
    requires a + n + b + 7 <= q && q + c + w + e == |line|
    requires line[..a] == Spaces(a) && line[a + n..a + n + b] == Spaces(b)
    requires DayMonth(line[a + n + b..a + n + b + 7])
    requires line[q..q + c] == Spaces(c) && line[q + c + w..] == Spaces(e)
    ensures line == Render(Cut(line, a, n, b, q, c, w), a, b, c, e)
  {
    var p := a + n + b;
    var f := Cut(line, a, n, b, q, c, w);
    AssembleTail(line, p + 7, q, c, w, e);
    var tail := f.desc + Spaces(c) + f.amount + Spaces(e);
    assert line[p + 7..] == tail;
    AssembleDayMonth(line, p);
    var mid := f.day + " " + f.month + " " + tail;
    assert line[p..] == mid;
    AssembleHead(line, a, n, b);
    assert line == Spaces(a) + f.id + Spaces(b) + mid;
  }

  lemma AssembleHead(line: string, a: nat, n: nat, b: nat)
    requires a + n + b <= |line|
    requires line[..a] == Spaces(a) && line[a + n..a + n + b] == Spaces(b)
    ensures line == Spaces(a) + line[a..a + n] + Spaces(b) + line[a + n + b..]
  {
    SliceCat(line, a, a + n, a + n + b);
    SliceCatEnd(line, a, a + n + b);
    SliceCatEnd(line, 0, a);
    assert line == line[..a] + line[a..];
  }

  lemma AssembleDayMonth(line: string, p: nat)
    requires p + 7 <= |line| && DayMonth(line[p..p + 7])
    ensures line[p..] == line[p..p + 2] + " " + line[p + 3..p + 6] + " " + line[p + 7..]
  {
    var dm := line[p..p + 7];
    DayMonthParts(dm);
    assert dm[..2] == line[p..p + 2] && dm[3..6] == line[p + 3..p + 6];
    SliceCatEnd(line, p, p + 7);
  }

  lemma AssembleTail(line: string, i: nat, q: nat, c: nat, w: nat, e: nat)
    requires i <= q && q + c + w + e == |line|
    requires line[q..q + c] == Spaces(c) && line[q + c + w..] == Spaces(e)
    ensures line[i..] == line[i..q] + Spaces(c) + line[q + c..q + c + w] + Spaces(e)
  {
    SliceCat(line, q, q + c, q + c + w);
    SliceCatEnd(line, q, q + c + w);
    SliceCatEnd(line, i, q);
  }

  lemma LaidOf(f: Fields, anchored: bool, lead: nat, gap: nat, pad: nat, trail: nat)
    requires (anchored ==> lead == 0) && gap >= 1 && pad >= 1
    ensures Laid(Render(f, lead, gap, pad, trail), f, anchored)
  {
  }

  /** Every line `Shape` cuts has the shape, with the captures it returns. */
  lemma ShapeSound(line: string, anchored: bool)
    ensures Shape(line, anchored).Some? ==> Shaped(Shape(line, anchored).value) && Laid(line, Shape(line, anchored).value, anchored)
  {
    if Shape(line, anchored).Some? {
      ShapeSome(line, anchored);
      ShapeCutsLaid(line, anchored, Head(line), Tail(line));
    }
  }

  /** `line` holds the pieces of `f` where `Render(f, a, b, c, e)` puts them. */
  predicate LaidAt(line: string, f: Fields, a: nat, b: nat, c: nat, e: nat) {
    var n := |f.id|;
    var p := a + n + b;
    var q := p + |f.day| + |f.month| + 2 + |f.desc|;
    var end := q + c + |f.amount|;
    && |line| == end + e
    && line[..a] == Spaces(a)
    && line[a..a + n] == f.id
    && line[a + n..p] == Spaces(b)
    && line[p..q - |f.desc|] == f.day + " " + f.month + " "
    && line[q - |f.desc|..q] == f.desc
    && line[q..q + c] == Spaces(c)
    && line[q + c..end] == f.amount
    && line[end..] == Spaces(e)
  }

  /** Where each piece of a rendered line sits. */
  lemma RenderAt(f: Fields, a: nat, b: nat, c: nat, e: nat)
    ensures LaidAt(Render(f, a, b, c, e), f, a, b, c, e)
  {
    RenderHeadAt(f, a, b, c, e);
    RenderTailAt(f, a, b, c, e);
  }

  lemma RenderHeadAt(f: Fields, a: nat, b: nat, c: nat, e: nat)
    ensures var r, n := Render(f, a, b, c, e), |f.id|;
      && r[..a] == Spaces(a) && r[a..a + n] == f.id && r[a + n..a + n + b] == Spaces(b)
  {
    var x := Spaces(a) + f.id + Spaces(b);
    var y := f.day + " " + f.month + " " + (f.desc + Spaces(c) + f.amount + Spaces(e));
    var n := |f.id|;
    HeadPieces(f.id, a, b);
    LeftSlice(x, y, 0, a);
    LeftSlice(x, y, a, a + n);
    LeftSlice(x, y, a + n, |x|);
  }

  lemma RenderTailAt(f: Fields, a: nat, b: nat, c: nat, e: nat)
    ensures var r, p := Render(f, a, b, c, e), a + |f.id| + b;
      var m := |f.day| + |f.month| + 2;
      var d := p + m + |f.desc|;
      && |r| == d + c + |f.amount| + e
      && r[p..p + m] == f.day + " " + f.month + " "
      && r[p + m..d] == f.desc
      && r[d..d + c] == Spaces(c)
      && r[d + c..d + c + |f.amount|] == f.amount
      && r[d + c + |f.amount|..] == Spaces(e)
  {
    var x := Spaces(a) + f.id + Spaces(b);
    var y := f.day + " " + f.month + " " + (f.desc + Spaces(c) + f.amount + Spaces(e));
    var m := |f.day| + |f.month| + 2;
    var d := m + |f.desc|;
    TailPieces(f, c, e);
    RightSlice(x, y, 0, m);
    RightSlice(x, y, m, d);
    RightSlice(x, y, d, d + c);
    RightSlice(x, y, d + c, d + c + |f.amount|);
    RightSlice(x, y, d + c + |f.amount|, |y|);
  }

  lemma LeftSlice(x: string, y: string, i: nat, j: nat)
    requires i <= j <= |x|
    ensures (x + y)[i..j] == x[i..j]
    ensures i == 0 ==> (x + y)[..j] == x[..j]
  {
  }

  lemma RightSlice(x: string, y: string, i: nat, j: nat)
    requires i <= j <= |y|
    ensures (x + y)[|x| + i..|x| + j] == y[i..j]
    ensures j == |y| ==> (x + y)[|x| + i..] == y[i..]
  {
  }

  lemma HeadPieces(id: string, a: nat, b: nat)
    ensures var x := Spaces(a) + id + Spaces(b);
      && x[..a] == Spaces(a) && x[a..a + |id|] == id && x[a + |id|..|x|] == Spaces(b)
  {
    CatParts(Spaces(a) + id, Spaces(b));
    CatParts(Spaces(a), id);
  }

  lemma TailPieces(f: Fields, c: nat, e: nat)
    ensures var z := f.desc + Spaces(c) + f.amount + Spaces(e);
      var y := f.day + " " + f.month + " " + z;
      var m := |f.day| + |f.month| + 2;
      var d := m + |f.desc|;
      && y[0..m] == f.day + " " + f.month + " "
      && y[m..d] == f.desc
      && y[d..d + c] == Spaces(c)
      && y[d + c..d + c + |f.amount|] == f.amount
      && y[d + c + |f.amount|..] == Spaces(e)
  {
    var z := f.desc + Spaces(c) + f.amount + Spaces(e);
    var m := |f.day| + |f.month| + 2;
    CatParts(f.day + " " + f.month + " ", z);
    ZPieces(f.desc, c, f.amount, e);
    var y := f.day + " " + f.month + " " + z;
    var d := m + |f.desc|;
    RightSlice(f.day + " " + f.month + " ", z, 0, |f.desc|);
    RightSlice(f.day + " " + f.month + " ", z, |f.desc|, |f.desc| + c);
    RightSlice(f.day + " " + f.month + " ", z, |f.desc| + c, |f.desc| + c + |f.amount|);
    RightSlice(f.day + " " + f.month + " ", z, |f.desc| + c + |f.amount|, |z|);
  }

  lemma ZPieces(desc: string, c: nat, amount: string, e: nat)
    ensures var z := desc + Spaces(c) + amount + Spaces(e);
      var d := |desc|;
      && z[0..d] == desc && z[d..d + c] == Spaces(c)
      && z[d + c..d + c + |amount|] == amount && z[d + c + |amount|..] == Spaces(e)
  {
    CatParts(desc + Spaces(c) + amount, Spaces(e));
    CatParts(desc + Spaces(c), amount);
    CatParts(desc, Spaces(c));
    var z := desc + Spaces(c) + amount + Spaces(e);
    var d := |desc|;
    LeftSlice(desc + Spaces(c) + amount, Spaces(e), 0, d);
    LeftSlice(desc + Spaces(c) + amount, Spaces(e), d, d + c);
    LeftSlice(desc + Spaces(c) + amount, Spaces(e), d + c, d + c + |amount|);
    LeftSlice(desc + Spaces(c), amount, 0, d);
    LeftSlice(desc + Spaces(c), amount, d, d + c);
  }

  lemma DayMonthOf(day: string, month: string)
    requires |day| == 2 && AllDigits(day)
    requires |month| == 3 && IsUpper(month[0]) && IsUpper(month[1]) && IsUpper(month[2])
    ensures DayMonth(day + " " + month + " ")
  {
  }

  /** A line laid out as `Render` lays it out is cut back into its pieces. */
  lemma ShapeAt(line: string, anchored: bool, f: Fields, a: nat, b: nat, c: nat, e: nat)
    requires Shaped(f) && LaidAt(line, f, a, b, c, e)
    requires (anchored ==> a == 0) && b >= 1 && c >= 1
    ensures Shape(line, anchored) == Some(f)
  {
    FoundAt(line, f, a, b, c, e);
    ShapeOfFound(line, anchored, f, a, b, c, e);
  }

  lemma ShapeOfFound(line: string, anchored: bool, f: Fields, a: nat, b: nat, c: nat, e: nat)
    requires Found(line, f, a, b, c, e) && |f.id| >= 1 && |f.desc| >= 2
    requires Head(line) == HeadCuts(a, |f.id|, b)
    requires Tail(line) == TailCuts(a + |f.id| + b + 7 + |f.desc|, c, |f.amount|, e)
    requires (anchored ==> a == 0) && b >= 1
    ensures Shape(line, anchored) == Some(f)
  {
    ShapeWithFound(line, anchored, f, a, b, c, e);
  }

  /** Cutting `line` where `Render(f, a, b, c, e)` places the pieces of `f`
      gives `f`. */
  predicate Found(line: string, f: Fields, a: nat, b: nat, c: nat, e: nat) {
    var p := a + |f.id| + b;
    var q := p + 7 + |f.desc|;
    && q + c + |f.amount| + e == |line|
    && DayMonth(line[p..p + 7])
    && Cut(line, a, |f.id|, b, q, c, |f.amount|) == f
  }

  lemma FoundAt(line: string, f: Fields, a: nat, b: nat, c: nat, e: nat)
    requires Shaped(f) && LaidAt(line, f, a, b, c, e) && b >= 1 && c >= 1
    ensures Found(line, f, a, b, c, e)
    ensures Head(line) == HeadCuts(a, |f.id|, b)
    ensures Tail(line) == TailCuts(a + |f.id| + b + 7 + |f.desc|, c, |f.amount|, e)
  {
    CutOf(line, f, a, b, c, e);
    CutsAt(line, f, a, b, c, e);
    DayMonthIn(line, f, a, b, c, e);
  }

  lemma ShapeWithFound(line: string, anchored: bool, f: Fields, a: nat, b: nat, c: nat, e: nat)
    requires Found(line, f, a, b, c, e) && |f.id| >= 1 && |f.desc| >= 2
    requires (anchored ==> a == 0) && b >= 1
    ensures var q := a + |f.id| + b + 7 + |f.desc|;
      ShapeWith(line, anchored, HeadCuts(a, |f.id|, b), TailCuts(q, c, |f.amount|, e)) == Some(f)
  {
  }

  lemma CutsAt(line: string, f: Fields, a: nat, b: nat, c: nat, e: nat)
    requires Shaped(f) && LaidAt(line, f, a, b, c, e) && b >= 1 && c >= 1
    ensures Head(line) == HeadCuts(a, |f.id|, b)
    ensures Tail(line) == TailCuts(a + |f.id| + b + 7 + |f.desc|, c, |f.amount|, e)
  {
    HeadAt(line, f, a, b, c, e);
    TailAt(line, f, a, b, c, e);
  }

  lemma DayMonthIn(line: string, f: Fields, a: nat, b: nat, c: nat, e: nat)
    requires Shaped(f) && LaidAt(line, f, a, b, c, e)
    ensures DayMonth(line[a + |f.id| + b..a + |f.id| + b + 7])
  {
    DayMonthOf(f.day, f.month);
  }

  lemma HeadAt(line: string, f: Fields, a: nat, b: nat, c: nat, e: nat)
    requires Shaped(f) && LaidAt(line, f, a, b, c, e) && b >= 1
    ensures Head(line) == HeadCuts(a, |f.id|, b)
  {
    var p := a + |f.id| + b;
    assert line[p] == line[p..p + 7][0];
    HeadOf(line, a, |f.id|, b);
  }

  lemma TailAt(line: string, f: Fields, a: nat, b: nat, c: nat, e: nat)
    requires Shaped(f) && LaidAt(line, f, a, b, c, e) && c >= 1
    ensures Tail(line) == TailCuts(a + |f.id| + b + 7 + |f.desc|, c, |f.amount|, e)
  {
    var q := a + |f.id| + b + 7 + |f.desc|;
    assert line[q - 1] == line[q - |f.desc|..q][|f.desc| - 1];
    TailOf(line, q, c, |f.amount|, e);
  }

  lemma CutOf(line: string, f: Fields, a: nat, b: nat, c: nat, e: nat)
    requires |f.day| == 2 && |f.month| == 3 && LaidAt(line, f, a, b, c, e)
    ensures Cut(line, a, |f.id|, b, a + |f.id| + b + 7 + |f.desc|, c, |f.amount|) == f
  {
    var p := a + |f.id| + b;
    var q := p + 7 + |f.desc|;
    DayMonthCut(line, p, f.day, f.month);
    assert line[a..a + |f.id|] == f.id;
    assert line[p + 7..q] == f.desc;
    assert line[q + c..q + c + |f.amount|] == f.amount;
  }

  /** The day and month sit at the start of a `<dd> <MMM> ` slice. */
  lemma DayMonthCut(line: string, p: nat, day: string, month: string)
    requires |day| == 2 && |month| == 3 && p + 7 <= |line|
    requires line[p..p + 7] == day + " " + month + " "
    ensures line[p..p + 2] == day && line[p + 3..p + 6] == month
  {
    SliceOfSlice(line, p, p + 7, 0, 2);
    SliceOfSlice(line, p, p + 7, 3, 6);
    DayMonthSlices(day, month);
  }

  lemma DayMonthSlices(day: string, month: string)
    requires |day| == 2 && |month| == 3
    ensures (day + " " + month + " ")[0..2] == day && (day + " " + month + " ")[3..6] == month
  {
  }

  /** A rendering of captures with the shape is cut back into them. */
  lemma ShapeOfRender(f: Fields, anchored: bool, lead: nat, gap: nat, pad: nat, trail: nat)
    requires Shaped(f)
    requires (anchored ==> lead == 0) && gap >= 1 && pad >= 1
    ensures Shape(Render(f, lead, gap, pad, trail), anchored) == Some(f)
  {
    RenderAt(f, lead, gap, pad, trail);
    ShapeAt(Render(f, lead, gap, pad, trail), anchored, f, lead, gap, pad, trail);
  }

  /** Every line with the shape is cut back into the same captures. */
  lemma ShapeComplete(line: string, anchored: bool, f: Fields)
    requires Shaped(f) && Laid(line, f, anchored)
    ensures Shape(line, anchored) == Some(f)
  {
    var lead: nat, gap: nat, pad: nat, trail: nat :|
      && (anchored ==> lead == 0) && gap >= 1 && pad >= 1
      && line == Render(f, lead, gap, pad, trail);
    ShapeOfRender(f, anchored, lead, gap, pad, trail);
  }

  /** The recogniser and the pattern agree on every line and every capture:
      `MatchTransaction` returns `f` exactly when the pattern matches `line`
      with captures `f`. */
  lemma MatchTransactionIff(d: Dialect, line: string, f: Fields)
    ensures MatchTransaction(d, line) == Some(f) <==> Matches(d, line, f)
  {
    ShapeSound(line, d == Early);
    if Matches(d, line, f) {
      ShapeComplete(line, d == Early, f);
    }
  }

  /** A line matches at most one way. */
  lemma MatchesUnique(d: Dialect, line: string, f: Fields, g: Fields)
    requires Matches(d, line, f) && Matches(d, line, g)
    ensures f == g
  {
    MatchTransactionIff(d, line, f);
    MatchTransactionIff(d, line, g);
  }
}
