/** Moving averages (`ma1side`, `ma2side`) and the first-difference filter
    (`firstdiff`). */
module Smoothing {
  import opened Observations
  import opened Outcome
  import opened Slicing
  import opened TimeSeries

  /** `[mean(x[s:s+width]) for s in range(count)]`, with Python's slice
      clipping for any width. */
  function WindowMeans(x: seq<Obs>, count: int, width: int): (r: seq<Obs>)
    ensures |r| == (if count < 0 then 0 else count)
    ensures forall i :: 0 <= i < |r| && 0 <= width && i + width <= |x| ==> r[i] == Mean(x[i..i + width])
  {
    var r := seq(if count < 0 then 0 else count, i => Mean(Slice(x, i, i + width)));
    assert forall i :: 0 <= i < |r| && 0 <= width && i + width <= |x| ==> r[i] == Mean(x[i..i + width]) by {
      forall i | 0 <= i < |r| && 0 <= width && i + width <= |x| ensures r[i] == Mean(x[i..i + width]) {
        SliceInside(x, i, i + width);
      }
    }
    r
  }

  /** The loop shared by `ma1side` and `ma2side`: one mean appended per
      window start. */
  method MovingMeans(x: seq<Obs>, count: int, width: int) returns (z: seq<Obs>)
    ensures z == WindowMeans(x, count, width)
  {
    z := [];
    var s := 0;
    while s < count
      invariant 0 <= s && (count < 0 ==> s == 0) && (count >= 0 ==> s <= count)
      invariant z == WindowMeans(x, s, width)
    {
      z := z + [Mean(Slice(x, s, s + width))];
      s := s + 1;
    }
  }

  /** `s.ma1side(L)`: means of the L observations ending at each date from
      the L-th on. */
  function OneSided(s: Series, L: int): (r: Result<Series>)
    requires Valid(s)
    ensures r.Err? <==> |s.dates| == 0 || L > |s.dates|
    ensures r.Err? ==> r.error == IndexError
    ensures r.Ok? && L >= 1 ==>
      && Valid(r.value) && |r.value.data| == |s.data| - L + 1
      && r.value.dates == s.dates[L - 1..]
      && (forall i :: 0 <= i < |r.value.data| ==> r.value.data[i] == Mean(s.data[i..i + L]))
    ensures r.Ok? ==> r.value.title == s.title + " (1-sided moving average)"
    ensures r.Ok? ==> |r.value.dates| > 0 && r.value.daterange == RangeText(r.value.dates) && r.value.units == s.units
    ensures r.Ok? ==> KeepsIdentity(s, r.value)
  {
    WithRange(s.(data := WindowMeans(s.data, |s.data| - L + 1, L),
                 dates := From(s.dates, L - 1),
                 title := s.title + " (1-sided moving average)"))
  }

  /** The loop of `ma1side`. */
  method Ma1Side(s: Series, L: int) returns (r: Result<Series>)
    requires Valid(s)
    ensures r == OneSided(s, L)
  {
    var z := MovingMeans(s.data, |s.data| - L + 1, L);
    r := WithRange(s.(data := z, dates := From(s.dates, L - 1),
                      title := s.title + " (1-sided moving average)"));
  }

  /** `s.ma2side(L)`: means of the 2L observations around each date from
      the L-th to the L-th last. */
  function TwoSided(s: Series, L: int): (r: Result<Series>)
    requires Valid(s)
    ensures L >= 0 ==> (r.Err? <==> L == 0 || |s.dates| <= 2 * L)
    ensures r.Err? ==> r.error == IndexError
    ensures r.Ok? && L >= 1 ==>
      && Valid(r.value) && |r.value.data| == |s.data| - 2 * L
      && r.value.dates == s.dates[L..|s.dates| - L]
      && (forall i :: 0 <= i < |r.value.data| ==> r.value.data[i] == Mean(s.data[i..i + 2 * L]))
    ensures r.Ok? ==> r.value.title == s.title + " (2-sided moving average)"
    ensures r.Ok? ==> |r.value.dates| > 0 && r.value.daterange == RangeText(r.value.dates) && r.value.units == s.units
    ensures r.Ok? ==> KeepsIdentity(s, r.value)
  {
    WithRange(s.(data := WindowMeans(s.data, |s.data| - 2 * L, 2 * L),
                 dates := Slice(s.dates, L, -L),
                 title := s.title + " (2-sided moving average)"))
  }

  /** The loop of `ma2side`. */
  method Ma2Side(s: Series, L: int) returns (r: Result<Series>)
    requires Valid(s)
    ensures r == TwoSided(s, L)
  {
    var z := MovingMeans(s.data, |s.data| - 2 * L, 2 * L);
    r := WithRange(s.(data := z, dates := Slice(s.dates, L, -L),
                      title := s.title + " (2-sided moving average)"));
  }

  /** A one-period moving average leaves data and dates as they were. */
  lemma OneSidedOfOne(s: Series)
    requires Valid(s) && |s.dates| > 0
    ensures OneSided(s, 1).Ok?
    ensures OneSided(s, 1).value.data == s.data && OneSided(s, 1).value.dates == s.dates
  {
    var r := OneSided(s, 1).value;
    forall i | 0 <= i < |s.data| ensures r.data[i] == s.data[i] {
      assert s.data[i..i + 1] == [s.data[i]];
      MeanOfOne(s.data[i]);
    }
  }

  /** The two-sided average of half-width L takes the same means as the
      one-sided average of width 2L, dropping the last L, and labels each
      with a date L periods later. */
  lemma TwoSidedIsCentred(s: Series, L: int)
    requires Valid(s) && L >= 1 && |s.dates| > 2 * L
    ensures TwoSided(s, L).Ok? && OneSided(s, 2 * L).Ok?
    ensures TwoSided(s, L).value.data == OneSided(s, 2 * L).value.data[..|s.data| - 2 * L]
    ensures forall i :: 0 <= i < |s.data| - 2 * L ==>
      TwoSided(s, L).value.dates[i] == s.dates[i + L]
      && OneSided(s, 2 * L).value.dates[i] == s.dates[i + 2 * L - 1]
  {
    var n := |s.data| - 2 * L;
    assert TwoSided(s, L).value.data == WindowMeans(s.data, n, 2 * L);
    assert OneSided(s, 2 * L).value.data == WindowMeans(s.data, n + 1, 2 * L);
    WindowMeansPrefix(s.data, n, n + 1, 2 * L);
    assert TwoSided(s, L).value.dates == s.dates[L..|s.dates| - L];
    assert OneSided(s, 2 * L).value.dates == s.dates[2 * L - 1..];
  }

  /** Fewer window starts give a prefix of the means. */
  lemma WindowMeansPrefix(x: seq<Obs>, m: nat, n: nat, width: int)
    requires m <= n
    ensures WindowMeans(x, m, width) == WindowMeans(x, n, width)[..m]
  {
  }

  /** The two-period moving average of 2, 4, 6, 8 is 3, 5, 7, dated from the
      second date on. */
  lemma MovingAverageExample(s: Series)
    requires Valid(s) && s.data == [Val(2.0), Val(4.0), Val(6.0), Val(8.0)]
    ensures OneSided(s, 2).Ok?
    ensures OneSided(s, 2).value.data == [Val(3.0), Val(5.0), Val(7.0)]
    ensures OneSided(s, 2).value.dates == s.dates[1..]
  {
    var r := OneSided(s, 2).value;
    assert s.data[0..2] == [Val(2.0), Val(4.0)];
    MeanOfPair(2.0, 4.0);
    assert s.data[1..3] == [Val(4.0), Val(6.0)];
    MeanOfPair(4.0, 6.0);
    assert s.data[2..4] == [Val(6.0), Val(8.0)];
    MeanOfPair(6.0, 8.0);
  }

  /** A moving average of a constant series is that constant. */
  lemma OneSidedOfConstant(s: Series, L: int, c: real)
    requires Valid(s) && Constant(s.data, c) && 1 <= L <= |s.dates|
    ensures OneSided(s, L).Ok?
    ensures Constant(OneSided(s, L).value.data, c)
  {
    var r := OneSided(s, L).value;
    forall i | 0 <= i < |r.data| ensures r.data[i] == Val(c) {
      var w := s.data[i..i + L];
      assert Constant(w, c) by {
        assert forall j :: 0 <= j < |w| ==> w[j] == s.data[i + j];
      }
      MeanOfConstant(w, c);
    }
  }

  /** `x[1:] - x[0:-1]`: the change into each observation from the one
      before. */
  function Diffs(x: seq<Obs>): (r: seq<Obs>)
    ensures |r| == (if |x| == 0 then 0 else |x| - 1)
    ensures forall i :: 0 <= i < |r| ==> r[i] == Sub(x[i + 1], x[i])
  {
    var later, earlier := From(x, 1), Upto(x, -1);
    DropOne(x);
    seq(|later|, i requires 0 <= i < |later| => Sub(later[i], earlier[i]))
  }

  /** The cycle half of `s.firstdiff()`: the change into each observation
      minus the mean change, dated from the second observation on. */
  function FirstDiffCycle(s: Series): (r: Result<Series>)
    requires Valid(s)
    ensures r.Err? <==> |s.dates| <= 1
    ensures r.Err? ==> r.error == IndexError
    ensures r.Ok? ==>
      && Valid(r.value) && |r.value.data| == |s.data| - 1 && r.value.dates == s.dates[1..]
      && (forall i :: 0 <= i < |r.value.data| ==>
            r.value.data[i] == Sub(Sub(s.data[i + 1], s.data[i]), Mean(Diffs(s.data))))
    ensures r.Ok? ==> r.value.units == "Deviation relative to trend" && r.value.title == s.title + " - deviation relative to trend (first difference filtered)"
    ensures r.Ok? ==> r.value.daterange == RangeText(r.value.dates) && KeepsIdentity(s, r.value)
  {
    var dy := Diffs(s.data);
    DropOne(s.dates);
    WithRange(s.(data := Shifted(dy, Mean(dy)),
                 dates := From(s.dates, 1),
                 units := "Deviation relative to trend",
                 title := s.title + " - deviation relative to trend (first difference filtered)"))
  }

  /** The trend half of `s.firstdiff()`: each observation dated one period
      later. */
  function FirstDiffTrend(s: Series): (r: Result<Series>)
    requires Valid(s)
    ensures r.Err? <==> |s.dates| <= 1
    ensures r.Err? ==> r.error == IndexError
    ensures r.Ok? ==>
      && Valid(r.value) && |r.value.data| == |s.data| - 1 && r.value.dates == s.dates[1..]
      && r.value.data == s.data[..|s.data| - 1]
    ensures r.Ok? ==> r.value.units == s.units && r.value.title == s.title + " - trend (first difference filtered)"
    ensures r.Ok? ==> r.value.daterange == RangeText(r.value.dates) && KeepsIdentity(s, r.value)
  {
    DropOne(s.data);
    DropOne(s.dates);
    WithRange(s.(data := Upto(s.data, -1),
                 dates := From(s.dates, 1),
                 title := s.title + " - trend (first difference filtered)"))
  }

  /** `s.firstdiff()`: the pair [cycle, trend]; the cycle's range label is
      built first, so a series of at most one observation fails there. */
  function FirstDiff(s: Series): (r: Result<(Series, Series)>)
    requires Valid(s)
    ensures r.Err? <==> |s.dates| <= 1
    ensures r.Ok? ==> FirstDiffCycle(s) == Ok(r.value.0) && FirstDiffTrend(s) == Ok(r.value.1)
  {
    var cycle := FirstDiffCycle(s);
    if cycle.Err? then Err(cycle.error)
    else Ok((cycle.value, FirstDiffTrend(s).value))
  }

  /** With no observation missing, the first-difference cycle sums to zero. */
  lemma FirstDiffCycleSumsToZero(s: Series)
    requires Valid(s) && |s.dates| > 1 && Present(s.data)
    ensures FirstDiffCycle(s).Ok?
    ensures Sum(FirstDiffCycle(s).value.data) == Val(0.0)
  {
    var dy := Diffs(s.data);
    assert Present(dy);
    assert FirstDiffCycle(s).value.data == Shifted(dy, Mean(dy));
    DemeanedSumsToZero(dy);
  }

  /** Trend, mean change and cycle add back up to the next observation. */
  lemma FirstDiffReconstructs(s: Series, i: nat)
    requires Valid(s) && i + 1 < |s.data| && Present(s.data)
    ensures FirstDiffCycle(s).Ok? && FirstDiffTrend(s).Ok?
    ensures Add(Add(FirstDiffCycle(s).value.data[i], Mean(Diffs(s.data))), FirstDiffTrend(s).value.data[i])
      == s.data[i + 1]
  {
    var dy := Diffs(s.data);
    assert Present(dy);
    SumPresent(dy);
    var m, x, y := Mean(dy), s.data[i], s.data[i + 1];
    assert FirstDiffCycle(s).value.data[i] == Sub(Sub(y, x), m);
    assert FirstDiffTrend(s).value.data[i] == x;
    AddsBack(x, y, m);
  }

  /** Removing the change and the mean change, then adding them back, is the
      identity on numbers. */
  lemma AddsBack(x: Obs, y: Obs, m: Obs)
    requires x.Val? && y.Val? && m.Val?
    ensures Add(Add(Sub(Sub(y, x), m), m), x) == y
  {
  }
}
