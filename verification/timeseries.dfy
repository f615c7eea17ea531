/** The `series` record of fredpy: parallel observation and date sequences,
    the periods-per-year constant and the descriptive metadata. Transforms
    never change their receiver; each returns a new value. */
module TimeSeries {
  import opened Observations
  import opened Calendar
  import opened Outcome

  /** Periods per year: 365, 52, 12, 4 or 1 in the source, never below one. */
  type PerYear = n: int | n >= 1 witness 1

  /** `arrayDates` records that `dates` is a NumPy array rather than a list:
      the frequency conversions build it with `np.append`, and every slice of
      it (and every combinator result taking its first operand's dates)
      keeps it an array. The distinction matters where two date sequences are
      compared with `!=`. */
  datatype Series = Series(
    data: seq<Obs>,
    dates: seq<Date>,
    t: PerYear,
    title: string,
    units: string,
    source: string,
    updated: string,
    idCode: string,
    freq: string,
    daterange: string,
    season: Option<string>,
    cycle: Option<seq<Obs>>,
    trend: Option<seq<Obs>>,
    arrayDates: bool)

  /** One observation per date. */
  predicate Valid(s: Series) {
    |s.data| == |s.dates|
  }

  /** `copy`: every field, including `cycle` and `trend` when present. The
      source shares the arrays rather than duplicating them; values here
      cannot be updated in place, so sharing is unobservable. */
  function Copy(s: Series): (r: Series)
    ensures r == s
  {
    s
  }

  /** The descriptive fields a restriction carries over unchanged. */
  predicate SameDescription(s: Series, r: Series) {
    && r.t == s.t && r.title == s.title && r.units == s.units && r.source == s.source
    && r.updated == s.updated && r.idCode == s.idCode && r.freq == s.freq && r.season == s.season
    && r.arrayDates == s.arrayDates
  }

  /** The fields a transform starting from `copy()` leaves as copied when it
      overrides only data, dates, labels, title and units. */
  predicate KeepsIdentity(s: Series, r: Series) {
    && r.t == s.t && r.source == s.source && r.updated == s.updated
    && r.idCode == s.idCode && r.freq == s.freq && r.season == s.season
    && r.cycle == s.cycle && r.trend == s.trend && r.arrayDates == s.arrayDates
  }

  /** The 'Range: <first> to <last>' label most transforms store. */
  function RangeText(ds: seq<Date>): string
    requires |ds| > 0
  {
    "Range: " + Iso(ds[0]) + " to " + Iso(ds[|ds| - 1])
  }

  /** Sets `daterange` from the new dates; `dates[0]` raises IndexError when
      the transform left no dates. */
  function WithRange(s: Series): (r: Result<Series>)
    ensures r.Err? <==> |s.dates| == 0
    ensures r.Err? ==> r.error == IndexError
    ensures r.Ok? ==> r.value == s.(daterange := RangeText(s.dates))
  {
    if |s.dates| == 0 then Err(IndexError) else Ok(s.(daterange := RangeText(s.dates)))
  }
}
