/** Date-window restriction (`window`), its multi-series form
    (`window_equalize`) and tail restriction (`recent`). */
module Windows {
  import opened Observations
  import opened Calendar
  import opened Outcome
  import opened Slicing
  import opened TimeSeries

  /** Index of the first date not before `d`; |ds| when there is none. */
  function FirstNotBefore(ds: seq<Date>, d: Date): (k: nat)
    ensures k <= |ds|
    ensures forall i :: 0 <= i < k ==> Before(ds[i], d)
    ensures k < |ds| ==> !Before(ds[k], d)
  {
    if |ds| == 0 || !Before(ds[0], d) then 0 else 1 + FirstNotBefore(ds[1..], d)
  }

  /** Index of the first date after `d`; |ds| when there is none. */
  function FirstAfter(ds: seq<Date>, d: Date): (k: nat)
    ensures k <= |ds|
    ensures forall i :: 0 <= i < k ==> !Before(d, ds[i])
    ensures k < |ds| ==> Before(d, ds[k])
  {
    if |ds| == 0 || Before(d, ds[0]) then 0 else 1 + FirstAfter(ds[1..], d)
  }

  /** `min0`: searched for only when `win_min` is after the earliest date, and
      left at 0 when the search finds nothing. */
  function LowerIndex(ds: seq<Date>, winMin: Date): nat
    requires |ds| > 0
  {
    if Before(Earliest(ds), winMin) && FirstNotBefore(ds, winMin) < |ds|
    then FirstNotBefore(ds, winMin) else 0
  }

  /** `max0`: searched for only when `win_max` is before the latest date. */
  function UpperIndex(ds: seq<Date>, winMax: Date): nat
    requires |ds| > 0
  {
    if Before(winMax, Latest(ds)) then FirstAfter(ds, winMax) else |ds|
  }

  function SliceOpt(c: Option<seq<Obs>>, lo: nat, hi: nat): Option<seq<Obs>> {
    if c.Some? then Some(Slice(c.value, lo, hi)) else None
  }

  /** The label `window` stores: the first and last kept dates, without the
      'Range: ' prefix the other transforms use. */
  function WindowLabel(ds: seq<Date>): string
    requires |ds| > 0
  {
    Iso(ds[0]) + " to " + Iso(ds[|ds| - 1])
  }

  /** The slice `[lo:hi]` of every per-date field, then the label. */
  function Restrict(s: Series, lo: nat, hi: nat): (r: Result<Series>)
    requires Valid(s) && lo <= |s.dates| && hi <= |s.dates|
    ensures r.Err? <==> hi <= lo
    ensures r.Err? ==> r.error == IndexError
    ensures r.Ok? ==> Valid(r.value) && r.value.dates == s.dates[lo..hi] && r.value.data == s.data[lo..hi]
    ensures r.Ok? ==> ShortExtras(r.value) && r.value.daterange == WindowLabel(r.value.dates)
    ensures r.Ok? ==> SameDescription(s, r.value)
    ensures r.Ok? ==> (r.value.cycle.Some? <==> s.cycle.Some?) && (r.value.trend.Some? <==> s.trend.Some?)
    ensures r.Ok? && s.cycle.Some? && |s.cycle.value| == |s.dates| ==> r.value.cycle == Some(s.cycle.value[lo..hi])
    ensures r.Ok? && s.trend.Some? && |s.trend.value| == |s.dates| ==> r.value.trend == Some(s.trend.value[lo..hi])
  {
    var ds := Slice(s.dates, lo, hi);
    if |ds| == 0 then Err(IndexError)
    else Ok(s.(data := Slice(s.data, lo, hi),
               dates := ds,
               daterange := WindowLabel(ds),
               cycle := SliceOpt(s.cycle, lo, hi),
               trend := SliceOpt(s.trend, lo, hi)))
  }

  /** `cycle` and `trend`, when present, are no longer than the dates. */
  predicate ShortExtras(s: Series) {
    && (s.cycle.Some? ==> |s.cycle.value| <= |s.dates|)
    && (s.trend.Some? ==> |s.trend.value| <= |s.dates|)
  }

  /** Restricting a window's own result to all of it gives it back. */
  lemma RestrictWhole(w: Series)
    requires Valid(w) && |w.dates| > 0 && w.daterange == WindowLabel(w.dates) && ShortExtras(w)
    ensures Restrict(w, 0, |w.dates|) == Ok(w)
  {
    assert Slice(w.dates, 0, |w.dates|) == w.dates;
    assert Slice(w.data, 0, |w.dates|) == w.data;
    if w.cycle.Some? { SliceWhole(w.cycle.value, |w.dates|); }
    if w.trend.Some? { SliceWhole(w.trend.value, |w.dates|); }
  }

  /** `s.window([winMin, winMax])`. `min` of no dates raises ValueError; an
      empty slice of a non-empty series raises IndexError when `daterange`
      reads its first date, because the emptiness guard tests the original
      dates rather than the sliced ones. */
  function Windowed(s: Series, winMin: Date, winMax: Date): (r: Result<Series>)
    requires Valid(s)
    ensures r.Err? <==>
      (|s.dates| == 0 || UpperIndex(s.dates, winMax) <= LowerIndex(s.dates, winMin))
    ensures r.Err? ==> r.error == (if |s.dates| == 0 then ValueError else IndexError)
    ensures r.Ok? ==> |s.dates| > 0 && Valid(r.value) && |r.value.dates| > 0
    ensures r.Ok? ==>
      r.value.dates == s.dates[LowerIndex(s.dates, winMin)..UpperIndex(s.dates, winMax)]
    ensures r.Ok? ==> r.value.daterange == WindowLabel(r.value.dates) && SameDescription(s, r.value)
  {
    if |s.dates| == 0 then Err(ValueError)
    else Restrict(s, LowerIndex(s.dates, winMin), UpperIndex(s.dates, winMax))
  }

  /** The two linear searches of `window`, then the slice. */
  method Window(s: Series, winMin: Date, winMax: Date) returns (r: Result<Series>)
    requires Valid(s)
    ensures r == Windowed(s, winMin, winMax)
  {
    var n := |s.data|;
    if n == 0 {
      return Err(ValueError);
    }
    var min0, max0 := 0, n;
    if Before(Earliest(s.dates), winMin) {
      var k := 0;
      while k < n && Before(s.dates[k], winMin)
        invariant 0 <= k <= n
        invariant forall i :: 0 <= i < k ==> Before(s.dates[i], winMin)
      {
        k := k + 1;
      }
      if k < n {
        min0 := k;
      }
    }
    if Before(winMax, Latest(s.dates)) {
      var k := 0;
      while k < n && !Before(winMax, s.dates[k])
        invariant 0 <= k <= n
        invariant forall i :: 0 <= i < k ==> !Before(winMax, s.dates[i])
      {
        k := k + 1;
      }
      if k < n {
        max0 := k;
      }
    }
    assert min0 == LowerIndex(s.dates, winMin);
    assert max0 == UpperIndex(s.dates, winMax);
    r := Restrict(s, min0, max0);
  }

  /** Date `d` lies in the closed window [winMin, winMax]. */
  predicate InWindow(d: Date, winMin: Date, winMax: Date) {
    !Before(d, winMin) && !Before(winMax, d)
  }

  /** On strictly increasing dates, with `winMin` not after the last date, the
      kept indices [min0, max0) are exactly those whose date lies in the
      window; the window fails exactly when no date does. */
  lemma WindowKeepsExactlyInRange(s: Series, winMin: Date, winMax: Date)
    requires Valid(s) && |s.dates| > 0 && Increasing(s.dates)
    requires !Before(s.dates[|s.dates| - 1], winMin)
    ensures forall i :: 0 <= i < |s.dates| ==>
      (LowerIndex(s.dates, winMin) <= i < UpperIndex(s.dates, winMax) <==> InWindow(s.dates[i], winMin, winMax))
    ensures Windowed(s, winMin, winMax).Err? <==>
      forall i :: 0 <= i < |s.dates| ==> !InWindow(s.dates[i], winMin, winMax)
  {
    var ds := s.dates;
    EndsOfIncreasing(ds);
    var lo, hi := LowerIndex(ds, winMin), UpperIndex(ds, winMax);
    forall i | 0 <= i < |ds|
      ensures lo <= i <==> !Before(ds[i], winMin)
    {
      if Before(Earliest(ds), winMin) {
        assert lo == FirstNotBefore(ds, winMin);
        if lo < i {
          assert Before(ds[lo], ds[i]);
          if Before(ds[i], winMin) { BeforeTransitive(ds[lo], ds[i], winMin); }
        }
      } else {
        assert !Before(ds[i], ds[0]);
      }
    }
    forall i | 0 <= i < |ds|
      ensures i < hi <==> !Before(winMax, ds[i])
    {
      if Before(winMax, Latest(ds)) {
        if hi < i {
          assert Before(ds[hi], ds[i]);
          BeforeTransitive(winMax, ds[hi], ds[i]);
        }
      } else {
        NotBeforeTransitive(ds[i], ds[|ds| - 1], winMax);
      }
    }
    if hi <= lo {
      forall i | 0 <= i < |ds| ensures !InWindow(ds[i], winMin, winMax) {
      }
    } else {
      assert InWindow(ds[lo], winMin, winMax);
    }
  }

  /** Every date before `max0` is not after `winMax`. */
  lemma KeptNotAfterMax(ds: seq<Date>, winMax: Date)
    requires |ds| > 0
    ensures forall i :: 0 <= i < UpperIndex(ds, winMax) ==> !Before(winMax, ds[i])
  {
    if !Before(winMax, Latest(ds)) {
      forall i | 0 <= i < |ds| ensures !Before(winMax, ds[i]) {
        NotBeforeTransitive(ds[i], Latest(ds), winMax);
      }
    }
  }

  /** On increasing dates, the date at `min0` is not before `winMin`, unless
      every date is (the case where `min0` stays 0). */
  lemma KeptFromMin(ds: seq<Date>, winMin: Date)
    requires |ds| > 0 && Increasing(ds)
    ensures !Before(ds[LowerIndex(ds, winMin)], winMin)
      || (LowerIndex(ds, winMin) == 0 && forall i :: 0 <= i < |ds| ==> Before(ds[i], winMin))
  {
    EndsOfIncreasing(ds);
  }

  /** `min0` is 0 when the first date reaches `winMin` or no date does. */
  lemma LowerIndexZero(ds: seq<Date>, winMin: Date)
    requires |ds| > 0 && Increasing(ds)
    requires !Before(ds[0], winMin) || forall i :: 0 <= i < |ds| ==> Before(ds[i], winMin)
    ensures LowerIndex(ds, winMin) == 0
  {
    EndsOfIncreasing(ds);
  }

  /** `max0` is the length when no date is after `winMax`. */
  lemma UpperIndexAll(ds: seq<Date>, winMax: Date)
    requires |ds| > 0
    requires forall i :: 0 <= i < |ds| ==> !Before(winMax, ds[i])
    ensures UpperIndex(ds, winMax) == |ds|
  {
  }

  /** Windowing again with the same bounds changes nothing. */
  lemma WindowIdempotent(s: Series, winMin: Date, winMax: Date)
    requires Valid(s) && Increasing(s.dates)
    requires Windowed(s, winMin, winMax).Ok?
    ensures Windowed(Windowed(s, winMin, winMax).value, winMin, winMax) == Windowed(s, winMin, winMax)
  {
    var w := Windowed(s, winMin, winMax).value;
    BoundsOfWindow(s.dates, winMin, winMax);
    assert Windowed(w, winMin, winMax) == Restrict(w, 0, |w.dates|);
    RestrictWhole(w);
  }

  /** The dates a window keeps, searched again with the same bounds, are
      kept whole. */
  lemma BoundsOfWindow(ds: seq<Date>, winMin: Date, winMax: Date)
    requires |ds| > 0 && Increasing(ds)
    requires LowerIndex(ds, winMin) < UpperIndex(ds, winMax)
    ensures var ws := ds[LowerIndex(ds, winMin)..UpperIndex(ds, winMax)];
      LowerIndex(ws, winMin) == 0 && UpperIndex(ws, winMax) == |ws|
  {
    var lo, hi := LowerIndex(ds, winMin), UpperIndex(ds, winMax);
    var ws := ds[lo..hi];
    IncreasingSlice(ds, lo, hi);
    KeptNotAfterMax(ds, winMax);
    forall i | 0 <= i < |ws| ensures !Before(winMax, ws[i]) {
      assert ws[i] == ds[lo + i];
    }
    UpperIndexAll(ws, winMax);
    KeptFromMin(ds, winMin);
    if Before(ds[lo], winMin) {
      forall i | 0 <= i < |ws| ensures Before(ws[i], winMin) {
        assert ws[i] == ds[lo + i];
      }
    } else {
      assert ws[0] == ds[lo];
    }
    LowerIndexZero(ws, winMin);
  }

  /** A stretch of increasing dates is increasing. */
  lemma IncreasingSlice(ds: seq<Date>, lo: nat, hi: nat)
    requires Increasing(ds) && lo <= hi <= |ds|
    ensures Increasing(ds[lo..hi])
  {
    var ws := ds[lo..hi];
    forall i, j | 0 <= i < j < |ws| ensures Before(ws[i], ws[j]) {
      assert ws[i] == ds[lo + i] && ws[j] == ds[lo + j];
    }
  }

  /** `s.recent(N)`: the last N observations through `[-N:]` slices, so
      N = 0 keeps everything and a negative N drops the first -N. `cycle` and
      `trend` are carried over unsliced. */
  function Recent(s: Series, n: int): (r: Result<Series>)
    requires Valid(s)
    ensures r.Err? <==> |s.dates| == 0 || n <= -|s.dates|
    ensures r.Err? ==> r.error == IndexError
    ensures r.Ok? ==> Valid(r.value)
    ensures r.Ok? ==> |r.value.dates| <= |s.dates|
    ensures r.Ok? ==> r.value.dates == s.dates[|s.dates| - |r.value.dates|..]
    ensures r.Ok? ==> r.value.data == s.data[|s.data| - |r.value.data|..]
    ensures r.Ok? ==> r.value.cycle == s.cycle && r.value.trend == s.trend && SameDescription(s, r.value)
    ensures r.Ok? ==> |r.value.dates| > 0 && r.value.daterange == RangeText(r.value.dates)
  {
    WithRange(s.(data := From(s.data, -n), dates := From(s.dates, -n)))
  }

  /** The number of observations `recent(N)` keeps. */
  lemma RecentLength(s: Series, n: int)
    requires Valid(s) && Recent(s, n).Ok?
    ensures 0 < n <= |s.dates| ==> |Recent(s, n).value.dates| == n
    ensures n == 0 || n >= |s.dates| ==> Recent(s, n).value.dates == s.dates
    ensures n < 0 ==> |Recent(s, n).value.dates| == |s.dates| + n
  {
  }

  /** On increasing dates, the last N observations are the window from the
      N-th last date to the last one. */
  lemma RecentIsWindow(s: Series, n: int)
    requires Valid(s) && Increasing(s.dates) && 0 < n <= |s.dates|
    ensures Recent(s, n).Ok? && Windowed(s, s.dates[|s.dates| - n], s.dates[|s.dates| - 1]).Ok?
    ensures Recent(s, n).value.dates == Windowed(s, s.dates[|s.dates| - n], s.dates[|s.dates| - 1]).value.dates
    ensures Recent(s, n).value.data == Windowed(s, s.dates[|s.dates| - n], s.dates[|s.dates| - 1]).value.data
  {
    var ds := s.dates;
    var m := |ds| - n;
    var winMin, winMax := ds[m], ds[|ds| - 1];
    RecentWindowBounds(ds, n);
    var w := Restrict(s, m, |ds|);
    assert Windowed(s, winMin, winMax) == w;
    var rc := Recent(s, n).value;
    assert rc.dates == ds[m..] && rc.data == s.data[m..];
  }

  /** The bounds `window` finds for the last N dates. */
  lemma RecentWindowBounds(ds: seq<Date>, n: int)
    requires Increasing(ds) && 0 < n <= |ds|
    ensures LowerIndex(ds, ds[|ds| - n]) == |ds| - n
    ensures UpperIndex(ds, ds[|ds| - 1]) == |ds|
  {
    var m := |ds| - n;
    EndsOfIncreasing(ds);
    if m > 0 {
      assert Before(ds[0], ds[m]);
      var k := FirstNotBefore(ds, ds[m]);
      assert forall i :: 0 <= i < m ==> Before(ds[i], ds[m]);
      assert !Before(ds[m], ds[m]);
    }
  }

  /** Every series has at least one date. */
  predicate AllDated(list: seq<Series>) {
    forall i :: 0 <= i < |list| ==> |list[i].dates| > 0
  }

  /** `[k.datetimes[0] for k in series_list]` */
  function Firsts(list: seq<Series>): (r: seq<Date>)
    requires AllDated(list)
    ensures |r| == |list| && forall i :: 0 <= i < |list| ==> r[i] == list[i].dates[0]
  {
    seq(|list|, i requires 0 <= i < |list| => list[i].dates[0])
  }

  /** `[k.datetimes[-1] for k in series_list]` */
  function Lasts(list: seq<Series>): (r: seq<Date>)
    requires AllDated(list)
    ensures |r| == |list| && forall i :: 0 <= i < |list| ==> r[i] == list[i].dates[|list[i].dates| - 1]
  {
    seq(|list|, i requires 0 <= i < |list| => list[i].dates[|list[i].dates| - 1])
  }

  /** Every series has a non-empty window. */
  predicate AllWindowed(list: seq<Series>, winMin: Date, winMax: Date)
    requires forall i :: 0 <= i < |list| ==> Valid(list[i])
  {
    forall i :: 0 <= i < |list| ==> Windowed(list[i], winMin, winMax).Ok?
  }

  /** `window_equalize(list)`: an empty series raises IndexError while the
      first and last dates are collected, an empty list raises ValueError in
      `max`, and otherwise every series is windowed to [latest first date,
      earliest last date], in input order; a window that fails fails the
      whole call. */
  function Equalized(list: seq<Series>): (r: Result<seq<Series>>)
    requires forall i :: 0 <= i < |list| ==> Valid(list[i])
    ensures r.Ok? ==> |r.value| == |list|
  {
    if !AllDated(list) then Err(IndexError)
    else if |list| == 0 then Err(ValueError)
    else
      var winMin, winMax := Latest(Firsts(list)), Earliest(Lasts(list));
      if AllWindowed(list, winMin, winMax) then Ok(WindowAll(list, winMin, winMax)) else Err(IndexError)
  }

  /** Every series windowed to the same range, in input order. */
  function WindowAll(list: seq<Series>, winMin: Date, winMax: Date): (r: seq<Series>)
    requires forall i :: 0 <= i < |list| ==> Valid(list[i])
    requires AllWindowed(list, winMin, winMax)
    ensures |r| == |list| && forall i :: 0 <= i < |list| ==> Windowed(list[i], winMin, winMax) == Ok(r[i])
  {
    seq(|list|, i requires 0 <= i < |list| => Windowed(list[i], winMin, winMax).value)
  }

  /** A failing window fails the whole of `window_equalize`. */
  lemma EqualizedFails(list: seq<Series>, k: nat)
    requires forall i :: 0 <= i < |list| ==> Valid(list[i])
    requires AllDated(list) && k < |list|
    requires Windowed(list[k], Latest(Firsts(list)), Earliest(Lasts(list))).Err?
    ensures Equalized(list) == Err(Windowed(list[k], Latest(Firsts(list)), Earliest(Lasts(list))).error)
  {
  }

  /** Windows collected for every series make up the result of `window_equalize`. */
  lemma EqualizedCollected(list: seq<Series>, winMin: Date, winMax: Date, out: seq<Series>)
    requires forall i :: 0 <= i < |list| ==> Valid(list[i])
    requires AllDated(list) && |list| > 0 && |out| == |list|
    requires winMin == Latest(Firsts(list)) && winMax == Earliest(Lasts(list))
    requires forall i :: 0 <= i < |list| ==> Windowed(list[i], winMin, winMax) == Ok(out[i])
    ensures Equalized(list) == Ok(out)
  {
    assert AllWindowed(list, winMin, winMax);
    WindowAllCollected(list, winMin, winMax, out);
  }

  /** The windows, one per series, are exactly what `WindowAll` lists. */
  lemma WindowAllCollected(list: seq<Series>, winMin: Date, winMax: Date, out: seq<Series>)
    requires forall i :: 0 <= i < |list| ==> Valid(list[i])
    requires AllWindowed(list, winMin, winMax) && |out| == |list|
    requires forall i :: 0 <= i < |list| ==> Windowed(list[i], winMin, winMax) == Ok(out[i])
    ensures WindowAll(list, winMin, winMax) == out
  {
    var ws := WindowAll(list, winMin, winMax);
    assert forall i :: 0 <= i < |list| ==> ws[i] == out[i];
  }

  /** Appending the next series' window keeps the collected windows in step
      with the inputs. */
  lemma CollectedStep(list: seq<Series>, winMin: Date, winMax: Date, out: seq<Series>, w: Series)
    requires forall i :: 0 <= i < |list| ==> Valid(list[i])
    requires |out| < |list|
    requires forall i :: 0 <= i < |out| ==> Windowed(list[i], winMin, winMax) == Ok(out[i])
    requires Windowed(list[|out|], winMin, winMax) == Ok(w)
    ensures forall i :: 0 <= i < |out| + 1 ==> Windowed(list[i], winMin, winMax) == Ok((out + [w])[i])
  {
    var next := out + [w];
    forall i | 0 <= i < |next| ensures Windowed(list[i], winMin, winMax) == Ok(next[i]) {
      if i < |out| { assert next[i] == out[i]; }
    }
  }

  /** The loop of `window_equalize`, appending one windowed series per input. */
  method WindowEqualize(list: seq<Series>) returns (r: Result<seq<Series>>)
    requires forall i :: 0 <= i < |list| ==> Valid(list[i])
    ensures r == Equalized(list)
  {
    if !AllDated(list) {
      return Err(IndexError);
    }
    if |list| == 0 {
      return Err(ValueError);
    }
    var winMin, winMax := Latest(Firsts(list)), Earliest(Lasts(list));
    var out: seq<Series> := [];
    var k := 0;
    while k < |list|
      invariant 0 <= k <= |list|
      invariant |out| == k
      invariant forall i :: 0 <= i < k ==> Windowed(list[i], winMin, winMax) == Ok(out[i])
    {
      var w := Window(list[k], winMin, winMax);
      if w.Err? {
        EqualizedFails(list, k);
        return Err(w.error);
      }
      CollectedStep(list, winMin, winMax, out, w.value);
      out, k := out + [w.value], k + 1;
    }
    EqualizedCollected(list, winMin, winMax, out);
    r := Ok(out);
  }

  /** A series that starts at or after `winMin` but after `winMax` gets an
      empty window. */
  lemma WindowAfterEndFails(y: Series, winMin: Date, winMax: Date)
    requires Valid(y) && |y.dates| > 0 && Increasing(y.dates)
    requires !Before(y.dates[0], winMin) && Before(winMax, y.dates[0])
    ensures Windowed(y, winMin, winMax).Err?
  {
    var ds := y.dates;
    EndsOfIncreasing(ds);
    LowerIndexZero(ds, winMin);
    if |ds| > 1 {
      assert Before(ds[0], ds[|ds| - 1]);
      BeforeTransitive(winMax, ds[0], ds[|ds| - 1]);
    }
    assert UpperIndex(ds, winMax) == 0;
  }

  /** A non-empty window of a series that reaches `winMin` keeps only dates
      inside the window. */
  lemma WindowedInRange(x: Series, winMin: Date, winMax: Date)
    requires Valid(x) && |x.dates| > 0 && Increasing(x.dates)
    requires !Before(x.dates[|x.dates| - 1], winMin)
    requires Windowed(x, winMin, winMax).Ok?
    ensures forall j :: 0 <= j < |Windowed(x, winMin, winMax).value.dates| ==>
      InWindow(Windowed(x, winMin, winMax).value.dates[j], winMin, winMax)
  {
    WindowKeepsExactlyInRange(x, winMin, winMax);
    var lo, hi := LowerIndex(x.dates, winMin), UpperIndex(x.dates, winMax);
    assert Windowed(x, winMin, winMax).value.dates == x.dates[lo..hi];
    StretchInWindow(x.dates, lo, hi, winMin, winMax);
  }

  /** A stretch of dates that all lie in the window, taken as a slice. */
  lemma StretchInWindow(ds: seq<Date>, lo: nat, hi: nat, winMin: Date, winMax: Date)
    requires lo <= hi <= |ds|
    requires forall i :: lo <= i < hi ==> InWindow(ds[i], winMin, winMax)
    ensures forall j :: 0 <= j < hi - lo ==> InWindow(ds[lo..hi][j], winMin, winMax)
  {
    forall j | 0 <= j < hi - lo ensures InWindow(ds[lo..hi][j], winMin, winMax) {
      assert ds[lo..hi][j] == ds[lo + j];
    }
  }

  /** A successful `window_equalize` returns each input windowed to
      [latest first date, earliest last date]. */
  lemma EqualizedWindows(list: seq<Series>)
    requires forall i :: 0 <= i < |list| ==> Valid(list[i])
    requires Equalized(list).Ok?
    ensures |list| > 0 && AllDated(list)
    ensures forall i :: 0 <= i < |list| ==>
      Windowed(list[i], Latest(Firsts(list)), Earliest(Lasts(list))) == Ok(Equalized(list).value[i])
  {
  }

  /** A series whose last date is not before `winMax` reaches `winMin`, when
      the series starting at `winMin` keeps a non-empty window. */
  lemma ReachesCommonStart(x: Series, y: Series, winMin: Date, winMax: Date)
    requires Valid(x) && |x.dates| > 0 && !Before(x.dates[|x.dates| - 1], winMax)
    requires Valid(y) && |y.dates| > 0 && Increasing(y.dates) && y.dates[0] == winMin
    requires Windowed(y, winMin, winMax).Ok?
    ensures !Before(x.dates[|x.dates| - 1], winMin)
  {
    var last := x.dates[|x.dates| - 1];
    if Before(last, winMin) {
      NotBeforeThenBefore(winMax, last, winMin);
      WindowAfterEndFails(y, winMin, winMax);
      assert false;
    }
  }

  /** When `window_equalize` succeeds on series with increasing dates, every
      kept date lies inside [latest first date, earliest last date]. */
  lemma EqualizedInsideCommonRange(list: seq<Series>)
    requires forall i :: 0 <= i < |list| ==> Valid(list[i]) && Increasing(list[i].dates)
    requires Equalized(list).Ok?
    ensures |list| > 0 && AllDated(list)
    ensures forall i, j :: 0 <= i < |list| && 0 <= j < |Equalized(list).value[i].dates| ==>
      InWindow(Equalized(list).value[i].dates[j], Latest(Firsts(list)), Earliest(Lasts(list)))
  {
    EqualizedWindows(list);
    var out := Equalized(list).value;
    var firsts, lasts := Firsts(list), Lasts(list);
    var winMin, winMax := Latest(firsts), Earliest(lasts);
    var m :| 0 <= m < |firsts| && firsts[m] == winMin;
    var y := list[m];
    assert y.dates[0] == winMin && Increasing(y.dates);
    assert Windowed(y, winMin, winMax) == Ok(out[m]);
    forall i | 0 <= i < |list|
      ensures forall j :: 0 <= j < |out[i].dates| ==> InWindow(out[i].dates[j], winMin, winMax)
    {
      assert lasts[i] == list[i].dates[|list[i].dates| - 1];
      assert !Before(lasts[i], winMax);
      ReachesCommonStart(list[i], y, winMin, winMax);
      WindowedInRange(list[i], winMin, winMax);
    }
  }
}
