/**
 * Query parameters of the two routes: the default window and the check that
 * a window is a non-empty range of dates.
 */
module DateRange {
  import opened Wrappers

  const DefaultStart: string := "2019-06-01"
  const DefaultEnd: string := "2020-05-31"

  /**
   * A query parameter or its default: an absent parameter, and an empty
   * one (the empty string is falsy), falls back to the default; any other
   * value is used verbatim.
   */
  function QueryParam(given: Option<string>, default: string): (v: string)
    ensures given.Some? && given.value != "" ==> v == given.value
    ensures given.None? || given.value == "" ==> v == default
    ensures default != "" ==> v != ""
  {
    match given
    case Some(s) => if s != "" then s else default
    case None => default
  }

  /** The time value of a JavaScript `Date`: NaN for an Invalid Date, else milliseconds. */
  datatype TimeValue = NaN | Time(ms: int)

  /** `new Date(s)`, given the engine's date-string parser. */
  function ToDate(parse: string -> Option<int>, s: string): TimeValue
  {
    match parse(s)
    case Some(ms) => Time(ms)
    case None => NaN
  }

  /** `a < b` on two dates: both sides go to their time values, and NaN is below nothing. */
  predicate Less(a: TimeValue, b: TimeValue)
  {
    a.Time? && b.Time? && a.ms < b.ms
  }

  /**
   * `isValidDateRange(start, end)`: a window is valid exactly when both
   * strings parse and the start is strictly earlier than the end; an
   * unparseable, equal or reversed window is rejected.
   */
  function IsValidDateRange(parse: string -> Option<int>, start: string, end: string): (valid: bool)
    ensures valid <==> parse(start).Some? && parse(end).Some? && parse(start).value < parse(end).value
    ensures start == end ==> !valid
  {
    Less(ToDate(parse, start), ToDate(parse, end))
  }
}
