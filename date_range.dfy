/**
 Whether a range includes the period the anchor instant lies in. The
 string-backed enum has the backing values "inclusive" and "exclusive";
 converting any other string fails.
 */
module DateRanges {
  import opened Wrappers

  datatype DateRange = Inclusive | Exclusive
  {
    /** The backing string of the case. */
    function Value(): string {
      match this
      case Inclusive => "inclusive"
      case Exclusive => "exclusive"
    }
  }

  /** The case with backing value s, or None where the enum would refuse s. */
  function From(s: string): (r: Option<DateRange>)
    ensures r.Some? ==> r.value.Value() == s
  {
    if s == "inclusive" then Some(Inclusive)
    else if s == "exclusive" then Some(Exclusive)
    else None
  }

  /** Converting a case to its backing value and back gives the case again. */
  lemma FromValue(d: DateRange)
    ensures From(d.Value()) == Some(d)
  {
  }

  /** Exactly the two backing values convert; every other string is refused. */
  lemma FromRefuses(s: string)
    ensures From(s).None? <==> s != "inclusive" && s != "exclusive"
  {
  }
}
