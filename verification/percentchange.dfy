/** Lag transforms: `pc` (change from the preceding period) and `apc` (change
    over one year, a lag of `t` periods), in their simple-ratio form
    100⋅(x(t)/x(t−lag) − 1). */
module PercentChange {
  import opened Observations
  import opened Outcome
  import opened Slicing
  import opened TimeSeries

  /** `method='backward'` labels a change with the later date, `'forward'`
      with the earlier one. */
  datatype Direction = Backward | Forward

  /** 100⋅(next/prev − 1). */
  function Growth(prev: Obs, next: Obs): Obs {
    Mul(Val(100.0), Sub(Div(next, prev), Val(1.0)))
  }

  /** `100*(x[lag:]/x[0:-lag] - 1)`: the two slices always have the same
      length, so the vectorised division never fails, and entry i compares
      observation i + lag with observation i. */
  function LagChanges(x: seq<Obs>, lag: PerYear): (r: seq<Obs>)
    ensures |r| == (if |x| < lag then 0 else |x| - lag)
    ensures forall i :: 0 <= i < |r| ==> r[i] == Growth(x[i], x[i + lag])
  {
    var later, earlier := From(x, lag), Slice(x, 0, -(lag as int));
    assert |later| == |earlier|;
    seq(|later|, i requires 0 <= i < |later| => Growth(earlier[i], later[i]))
  }

  /** `[t*x for x in pct]` */
  function Annualize(pct: seq<Obs>, t: PerYear): (r: seq<Obs>)
    ensures |r| == |pct|
    ensures forall i :: 0 <= i < |r| ==> r[i] == Mul(Val(t as real), pct[i])
  {
    seq(|pct|, i requires 0 <= i < |pct| => Mul(Val(t as real), pct[i]))
  }

  /** `s.pc(log=False, method, annualized)`. The source assigns `source` to a
      misspelt attribute, which leaves `source` itself as copied. */
  function Pc(s: Series, dir: Direction, annualized: bool): (r: Result<Series>)
    requires Valid(s)
    ensures r.Err? <==> |s.dates| <= 1
    ensures r.Err? ==> r.error == IndexError
    ensures r.Ok? ==> Valid(r.value) && |r.value.data| == |s.data| - 1
    ensures r.Ok? ==> forall i :: 0 <= i < |r.value.data| ==>
      r.value.data[i] == (if annualized then Mul(Val(s.t as real), Growth(s.data[i], s.data[i + 1]))
                          else Growth(s.data[i], s.data[i + 1]))
    ensures r.Ok? ==> r.value.dates == (if dir == Backward then s.dates[1..] else s.dates[..|s.dates| - 1])
    ensures r.Ok? ==> r.value.units == "Percent" && r.value.title == "Percentage Change in " + s.title
    ensures r.Ok? ==> r.value.daterange == RangeText(r.value.dates) && KeepsIdentity(s, r.value)
  {
    var pct := LagChanges(s.data, 1);
    var dte := if dir == Backward then From(s.dates, 1) else Upto(s.dates, -1);
    WithRange(s.(data := if annualized then Annualize(pct, s.t) else pct,
                 dates := dte,
                 units := "Percent",
                 title := "Percentage Change in " + s.title))
  }

  /** `s.apc(log=False, method)` as written: the forward dates are
      `dates[:T-t]`, which for a series shorter than one year counts from the
      end instead of giving nothing. */
  function ApcAsWritten(s: Series, dir: Direction): (r: Result<Series>)
    requires Valid(s)
    ensures r.Err? <==> if dir == Backward then |s.dates| <= s.t else |s.dates| == s.t || 2 * |s.dates| <= s.t
    ensures r.Err? ==> r.error == IndexError
    ensures r.Ok? ==> r.value.data == LagChanges(s.data, s.t)
    ensures r.Ok? ==>
      r.value.dates == (if dir == Backward then s.dates[s.t..]
                        else if |s.dates| >= s.t then s.dates[..|s.dates| - s.t]
                        else s.dates[..2 * |s.dates| - s.t])
    ensures r.Ok? ==> r.value.units == "Percent" && r.value.title == "Annual Percentage Change in " + s.title
    ensures r.Ok? ==> r.value.daterange == RangeText(r.value.dates) && KeepsIdentity(s, r.value)
  {
    var T := |s.data|;
    var dte := if dir == Backward then From(s.dates, s.t) else Upto(s.dates, T - s.t);
    WithRange(s.(data := LagChanges(s.data, s.t),
                 dates := dte,
                 units := "Percent",
                 title := "Annual Percentage Change in " + s.title))
  }

  /** The forward dates of `apc` for a series with fewer than `t` but more
      than `t/2` observations are not empty, while its data are: the result
      pairs no values with a non-empty date list. */
  lemma ApcAsWrittenMisaligned(s: Series)
    requires Valid(s) && |s.data| < s.t < 2 * |s.data|
    ensures ApcAsWritten(s, Forward).Ok?
    ensures |ApcAsWritten(s, Forward).value.data| == 0
    ensures |ApcAsWritten(s, Forward).value.dates| == 2 * |s.data| - s.t
    ensures !Valid(ApcAsWritten(s, Forward).value)
  {
  }

  /** A monthly series of eight observations shows the misalignment. */
  lemma ApcAsWrittenExample(s: Series)
    requires Valid(s) && |s.data| == 8 && s.t == 12
    ensures ApcAsWritten(s, Forward).Ok?
    ensures ApcAsWritten(s, Forward).value.data == []
    ensures ApcAsWritten(s, Forward).value.dates == s.dates[..4]
  {
    ApcAsWrittenMisaligned(s);
  }

  /** `s.apc(log=False, method)` with the forward dates clipped at zero, so
      that dates and changes always pair up. */
  function Apc(s: Series, dir: Direction): (r: Result<Series>)
    requires Valid(s)
    ensures r.Err? <==> |s.dates| <= s.t
    ensures r.Err? ==> r.error == IndexError
    ensures r.Ok? ==> Valid(r.value) && |r.value.data| == |s.data| - s.t
    ensures r.Ok? ==> forall i :: 0 <= i < |r.value.data| ==>
      r.value.data[i] == Growth(s.data[i], s.data[i + s.t])
    ensures r.Ok? ==> r.value.dates == (if dir == Backward then s.dates[s.t..] else s.dates[..|s.dates| - s.t])
    ensures r.Ok? ==> r.value.units == "Percent" && r.value.title == "Annual Percentage Change in " + s.title
    ensures r.Ok? ==> r.value.daterange == RangeText(r.value.dates) && KeepsIdentity(s, r.value)
  {
    var T := |s.data|;
    var dte := if dir == Backward then From(s.dates, s.t) else Upto(s.dates, if T < s.t then 0 else T - s.t);
    WithRange(s.(data := LagChanges(s.data, s.t),
                 dates := dte,
                 units := "Percent",
                 title := "Annual Percentage Change in " + s.title))
  }

  /** Wherever both series agree on the dates they keep, the corrected `apc`
      is the one written: only series shorter than a year differ. */
  lemma ApcAgreesFromOneYear(s: Series, dir: Direction)
    requires Valid(s) && |s.data| >= s.t
    ensures Apc(s, dir) == ApcAsWritten(s, dir)
  {
  }

  /** `prev` grown by `rate` percent. */
  function Grown(prev: real, rate: real): real {
    prev * (1.0 + rate / 100.0)
  }

  /** A percentage change undoes itself: the later observation is the earlier
      one grown by the reported rate. */
  lemma GrowthInverse(prev: real, next: real, v: real)
    requires prev != 0.0 && Growth(Val(prev), Val(next)) == Val(v)
    ensures next == Grown(prev, v)
  {
    var q := next / prev;
    assert v == 100.0 * (q - 1.0);
    assert prev * q == next;
  }

  /** A change is reported exactly when both observations are present and the
      earlier one is not zero. */
  lemma GrowthDefined(prev: Obs, next: Obs)
    ensures Growth(prev, next).Val? <==> prev.Val? && next.Val? && prev.v != 0.0
  {
  }

  /** An annualized change, divided back by `t`, recovers the next
      observation as the plain change does. */
  lemma AnnualizedGrowthInverse(prev: real, next: real, t: PerYear, v: real)
    requires prev != 0.0 && Mul(Val(t as real), Growth(Val(prev), Val(next))) == Val(v)
    ensures next == Grown(prev, v / t as real)
  {
    var g := Growth(Val(prev), Val(next)).v;
    GrowthInverse(prev, next, g);
    assert v / t as real == g;
  }

  /** Each `pc` value recovers the next observation from the current one. */
  lemma PcInverse(s: Series, dir: Direction, i: nat)
    requires Valid(s) && Pc(s, dir, false).Ok?
    requires i + 1 < |s.data| && s.data[i].Val? && s.data[i + 1].Val? && s.data[i].v != 0.0
    ensures Pc(s, dir, false).value.data[i].Val?
    ensures s.data[i + 1].v == Grown(s.data[i].v, Pc(s, dir, false).value.data[i].v)
  {
    var r := Pc(s, dir, false).value;
    assert r.data[i] == Growth(s.data[i], s.data[i + 1]);
    GrowthDefined(s.data[i], s.data[i + 1]);
    GrowthInverse(s.data[i].v, s.data[i + 1].v, r.data[i].v);
  }

  /** An annualized `pc` value, divided by `t`, recovers the next observation
      from the current one. */
  lemma PcAnnualizedInverse(s: Series, dir: Direction, i: nat)
    requires Valid(s) && Pc(s, dir, true).Ok?
    requires i + 1 < |s.data| && s.data[i].Val? && s.data[i + 1].Val? && s.data[i].v != 0.0
    ensures Pc(s, dir, true).value.data[i].Val?
    ensures s.data[i + 1].v == Grown(s.data[i].v, Pc(s, dir, true).value.data[i].v / s.t as real)
  {
    var r := Pc(s, dir, true).value;
    assert r.data[i] == Mul(Val(s.t as real), Growth(s.data[i], s.data[i + 1]));
    GrowthDefined(s.data[i], s.data[i + 1]);
    AnnualizedGrowthInverse(s.data[i].v, s.data[i + 1].v, s.t, r.data[i].v);
  }

  /** Each change at lag `lag` recovers the later observation. */
  lemma LagChangeInverse(x: seq<Obs>, lag: PerYear, i: nat)
    requires i + lag < |x| && x[i].Val? && x[i + lag].Val? && x[i].v != 0.0
    ensures LagChanges(x, lag)[i].Val?
    ensures x[i + lag].v == Grown(x[i].v, LagChanges(x, lag)[i].v)
  {
    var c := LagChanges(x, lag)[i];
    GrowthDefined(x[i], x[i + lag]);
    GrowthInverse(x[i].v, x[i + lag].v, c.v);
  }

  /** The changes `apc` reports are the lag-`t` changes. */
  lemma ApcData(s: Series, dir: Direction)
    requires Valid(s) && Apc(s, dir).Ok?
    ensures Apc(s, dir).value.data == LagChanges(s.data, s.t)
  {
  }

  /** Each `apc` value recovers the observation one year on. */
  lemma ApcInverse(s: Series, dir: Direction, i: nat)
    requires Valid(s) && Apc(s, dir).Ok?
    requires i + s.t < |s.data| && s.data[i].Val? && s.data[i + s.t].Val? && s.data[i].v != 0.0
    ensures Apc(s, dir).value.data[i].Val?
    ensures s.data[i + s.t].v == Grown(s.data[i].v, Apc(s, dir).value.data[i].v)
  {
    assert Apc(s, dir).value.data[i] == LagChanges(s.data, s.t)[i] by {
      ApcData(s, dir);
    }
    LagChangeInverse(s.data, s.t, i);
  }

  /** On annual data (`t` = 1) `apc` is `pc` apart from the title. */
  lemma ApcOfAnnualIsPc(s: Series, dir: Direction)
    requires Valid(s) && s.t == 1
    ensures Apc(s, dir).Ok? <==> Pc(s, dir, false).Ok?
    ensures Apc(s, dir).Ok? ==>
      Apc(s, dir).value == Pc(s, dir, false).value.(title := "Annual Percentage Change in " + s.title)
  {
  }

  /** The annualized `pc` is the plain one scaled by `t`, on the same dates. */
  lemma AnnualizedPc(s: Series, dir: Direction)
    requires Valid(s)
    ensures Pc(s, dir, true).Ok? <==> Pc(s, dir, false).Ok?
    ensures Pc(s, dir, true).Ok? ==>
      && Pc(s, dir, true).value.dates == Pc(s, dir, false).value.dates
      && forall i :: 0 <= i < |Pc(s, dir, true).value.data| ==>
           Pc(s, dir, true).value.data[i] == Mul(Val(s.t as real), Pc(s, dir, false).value.data[i])
  {
  }

  /** Two observations 100 and 110 give one change of 10 percent, dated with
      the later date going backward and the earlier one going forward. */
  lemma PcExample(s: Series)
    requires Valid(s) && s.data == [Val(100.0), Val(110.0)]
    ensures Pc(s, Backward, false).Ok? && Pc(s, Forward, false).Ok?
    ensures Pc(s, Backward, false).value.data == [Val(10.0)]
    ensures Pc(s, Backward, false).value.dates == [s.dates[1]]
    ensures Pc(s, Forward, false).value.dates == [s.dates[0]]
  {
    var r := Pc(s, Backward, false).value;
    assert Div(Val(110.0), Val(100.0)) == Val(1.1);
    assert r.data[0] == Growth(Val(100.0), Val(110.0));
  }

  /** The two directions report the same changes, shifted by one date. */
  lemma PcDirections(s: Series, annualized: bool)
    requires Valid(s) && |s.dates| > 1
    ensures Pc(s, Backward, annualized).Ok? && Pc(s, Forward, annualized).Ok?
    ensures Pc(s, Backward, annualized).value.data == Pc(s, Forward, annualized).value.data
    ensures forall i :: 0 <= i < |s.dates| - 1 ==>
      Pc(s, Backward, annualized).value.dates[i] == s.dates[i + 1]
      && Pc(s, Forward, annualized).value.dates[i] == s.dates[i]
  {
  }
}
