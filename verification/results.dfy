/** Failure-compatible wrappers shared by the whole model, and the errors a
    statement parse can end in. The Ruby code signals every failure by raising;
    here each raise becomes an `Err` carrying one of the `ParseError` cases. */
module Results {

  datatype Option<+T> = None | Some(value: T)

  /** The three transaction categories reconciled against the summary block. */
  datatype Category = Payments | Transactions | Fees

  datatype ParseError =
      /** "Failed to determine billing cycle dates": a date was needed before
          any billing-period header had been seen. */
    | BillingCycleUndetermined
      /** `Date.parse` rejected a month abbreviation. */
    | InvalidDate(month: string)
      /** A summary total was still nil when reconciliation rounded it. */
    | SummaryMissing
      /** "Calculated <category> payments mismatch <actual> != <expected>". */
    | TotalMismatch(category: Category, actual: int, expected: int)

  datatype Result<+T> = Ok(value: T) | Err(error: ParseError) {

    predicate IsFailure() {
      Err?
    }

    function PropagateFailure<U>(): Result<U>
      requires Err?
    {
      Err(error)
    }

    function Extract(): T
      requires Ok?
    {
      value
    }
  }

  /** Ruby's `compact`: the present values, in their order. */
  function Compact<T>(os: seq<Option<T>>): (r: seq<T>)
    ensures |r| <= |os|
    ensures forall k :: 0 <= k < |r| ==> Some(r[k]) in os
    ensures forall k :: 0 <= k < |os| && os[k].Some? ==> os[k].value in r
  {
    if |os| == 0 then []
    else if os[0].Some? then [os[0].value] + Compact(os[1..])
    else Compact(os[1..])
  }

  /** The value an option holds, as a list of none or one. */
  function Listed<T>(o: Option<T>): (r: seq<T>)
    ensures |r| <= 1 && (r == [] <==> o.None?)
    ensures o.Some? ==> r[0] == o.value
  {
    if o.Some? then [o.value] else []
  }

  /** Compacting two options keeps the first's value, then the second's. */
  lemma CompactPair<T>(a: Option<T>, b: Option<T>)
    ensures Compact([a, b]) == Listed(a) + Listed(b)
  {
    var os := [a, b];
    assert os[1..] == [b] && os[1..][1..] == [];
  }

  /** Two present values list as both, in order. */
  lemma ListedBoth<T>(x: T, y: T)
    ensures Listed(Some(x)) + Listed(Some(y)) == [x, y]
  {
  }

  /** Compacting works piecewise, so it keeps the order of the values. */
  lemma {:induction false} CompactAppend<T>(a: seq<Option<T>>, b: seq<Option<T>>)
    ensures Compact(a + b) == Compact(a) + Compact(b)
    decreases |a|
  {
    if |a| == 0 {
      assert a + b == b;
    } else {
      assert (a + b)[0] == a[0];
      assert (a + b)[1..] == a[1..] + b;
      CompactAppend(a[1..], b);
    }
  }
}
