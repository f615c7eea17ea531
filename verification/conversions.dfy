/** Calendar-anchored frequency conversion: `monthtoquarter`,
    `quartertoannual` and `monthtoannual`. Each scans the observations once,
    and at every anchor index emits one value for the group of consecutive
    observations it anchors, labelled with the group's first date. */
module Conversions {
  import opened Observations
  import opened Calendar
  import opened Outcome
  import opened TimeSeries
  import opened Combinators

  datatype Grouping = MonthsToQuarter | QuartersToYear | MonthsToYear

  /** `method='average'`, `'sum'` or `'end'`. */
  datatype Aggregation = ByAverage | BySum | ByEnd

  /** Observations per group. */
  function Size(g: Grouping): nat {
    match g
    case MonthsToQuarter => 3
    case QuartersToYear => 4
    case MonthsToYear => 12
  }

  /** First index of the group anchored at `k`: a quarter is anchored on its
      middle month, a year on its January. */
  function Start(g: Grouping, k: int): int {
    if g == MonthsToQuarter then k - 1 else k
  }

  /** The scan range `range(First(g), Stop(g, T))`. */
  function First(g: Grouping): int {
    if g == MonthsToQuarter then 1 else 0
  }

  function Stop(g: Grouping, n: nat): int {
    if g == MonthsToQuarter then n - 1 else n
  }

  /** The test the scan applies at index `k`: for quarters, a February, May,
      August or November strictly inside the series; for years, a January
      followed by at least a full year of observations. */
  predicate Anchored(g: Grouping, ds: seq<Date>, k: int) {
    match g
    case MonthsToQuarter =>
      1 <= k < |ds| - 1 && (ds[k].month == 2 || ds[k].month == 5 || ds[k].month == 8 || ds[k].month == 11)
    case QuartersToYear => 0 <= k < |ds| && ds[k].month == 1 && |ds| - k > 3
    case MonthsToYear => 0 <= k < |ds| && ds[k].month == 1 && |ds| - k > 11
  }

  /** Every anchor lies in the scan range and its whole group in the series. */
  lemma AnchoredGroupFits(g: Grouping, ds: seq<Date>, k: int)
    requires Anchored(g, ds, k)
    ensures First(g) <= k < Stop(g, |ds|)
    ensures 0 <= Start(g, k) && Start(g, k) + Size(g) <= |ds|
  {
  }

  /** The observations of the group anchored at `k`. */
  function Group(g: Grouping, x: seq<Obs>, k: int): (r: seq<Obs>)
    requires 0 <= Start(g, k) && Start(g, k) + Size(g) <= |x|
    ensures |r| == Size(g)
  {
    x[Start(g, k)..Start(g, k) + Size(g)]
  }

  /** The group anchored at `k` is the three months around a quarter's
      middle month, or the 4 quarters or 12 months from a January; `'sum'`
      adds its members left to right, `'average'` divides that by the group
      size and `'end'` takes its last member. */
  lemma GroupOfAnchor(g: Grouping, x: seq<Obs>, k: int)
    requires 0 <= Start(g, k) && Start(g, k) + Size(g) <= |x|
    ensures g == MonthsToQuarter ==> Group(g, x, k) == [x[k - 1], x[k], x[k + 1]]
    ensures g == MonthsToQuarter ==> Aggregate(BySum, Group(g, x, k)) == Add(Add(x[k - 1], x[k]), x[k + 1])
    ensures g != MonthsToQuarter ==> Group(g, x, k) == x[k..k + Size(g)]
    ensures Aggregate(ByAverage, Group(g, x, k)) == Div(Aggregate(BySum, Group(g, x, k)), Val(Size(g) as real))
    ensures Aggregate(ByEnd, Group(g, x, k)) == x[if g == MonthsToQuarter then k + 1 else k + Size(g) - 1]
  {
    var grp := Group(g, x, k);
    if g == MonthsToQuarter {
      assert grp == [x[k - 1], x[k], x[k + 1]];
      assert grp[..2][..1][..0] == [];
      assert Sum(grp[..1]) == Add(Val(0.0), x[k - 1]);
      assert Add(Val(0.0), x[k - 1]) == x[k - 1];
      assert Sum(grp[..2]) == Add(x[k - 1], x[k]) by {
        assert grp[..2][..1] == grp[..1];
      }
    }
  }

  /** The group's average, sum or last value. */
  function Aggregate(how: Aggregation, grp: seq<Obs>): Obs
    requires |grp| > 0
  {
    match how
    case ByAverage => Mean(grp)
    case BySum => Sum(grp)
    case ByEnd => grp[|grp| - 1]
  }

  /** The anchors below `k`, in scan order. */
  function Anchors(g: Grouping, ds: seq<Date>, k: int): (r: seq<int>)
    decreases k
    ensures forall i :: 0 <= i < |r| ==> Anchored(g, ds, r[i]) && r[i] < k
  {
    if k <= 0 then []
    else Anchors(g, ds, k - 1) + (if Anchored(g, ds, k - 1) then [k - 1] else [])
  }

  /** The anchors are listed in increasing order. */
  lemma {:induction false} AnchorsIncreasing(g: Grouping, ds: seq<Date>, k: int)
    decreases k
    ensures forall i, j :: 0 <= i < j < |Anchors(g, ds, k)| ==> Anchors(g, ds, k)[i] < Anchors(g, ds, k)[j]
  {
    if k > 0 {
      AnchorsIncreasing(g, ds, k - 1);
    }
  }

  /** Every anchor below `k` is listed. */
  lemma {:induction false} AnchorsComplete(g: Grouping, ds: seq<Date>, k: int)
    decreases k
    ensures forall j :: j < k && Anchored(g, ds, j) ==> j in Anchors(g, ds, k)
  {
    if k > 0 {
      AnchorsComplete(g, ds, k - 1);
      if Anchored(g, ds, k - 1) {
        assert Anchors(g, ds, k)[|Anchors(g, ds, k)| - 1] == k - 1;
      }
    }
  }

  /** `temp_data` after scanning the indices below `k`. */
  function Values(g: Grouping, how: Aggregation, x: seq<Obs>, ds: seq<Date>, k: int): seq<Obs>
    requires |x| == |ds|
    decreases k
  {
    if k <= 0 then []
    else
      var rest := Values(g, how, x, ds, k - 1);
      if Anchored(g, ds, k - 1) then
        AnchoredGroupFits(g, ds, k - 1);
        rest + [Aggregate(how, Group(g, x, k - 1))]
      else rest
  }

  /** `temp_dates` after scanning the indices below `k`. */
  function Labels(g: Grouping, ds: seq<Date>, k: int): seq<Date>
    decreases k
  {
    if k <= 0 then []
    else
      var rest := Labels(g, ds, k - 1);
      if Anchored(g, ds, k - 1) then
        AnchoredGroupFits(g, ds, k - 1);
        rest + [ds[Start(g, k - 1)]]
      else rest
  }

  /** The scan collects one value per anchor, in anchor order: the
      aggregate of the anchored group. */
  lemma {:induction false} ValuesAtAnchors(g: Grouping, how: Aggregation, x: seq<Obs>, ds: seq<Date>, k: int)
    requires |x| == |ds|
    decreases k
    ensures ValuesMatch(g, how, x, ds, k)
  {
    if k > 0 {
      ValuesAtAnchors(g, how, x, ds, k - 1);
      if Anchored(g, ds, k - 1) {
        ValuesAnchoredStep(g, how, x, ds, k);
      } else {
        assert Anchors(g, ds, k) == Anchors(g, ds, k - 1);
      }
    }
  }

  /** One value per anchor, each its group's aggregate. */
  predicate ValuesMatch(g: Grouping, how: Aggregation, x: seq<Obs>, ds: seq<Date>, k: int)
    requires |x| == |ds|
  {
    && |Values(g, how, x, ds, k)| == |Anchors(g, ds, k)|
    && forall i :: 0 <= i < |Anchors(g, ds, k)| ==>
         Values(g, how, x, ds, k)[i] == Aggregate(how, Group(g, x, Anchors(g, ds, k)[i]))
  }

  /** An anchor at `k - 1` appends its group's aggregate. */
  lemma ValuesAnchoredStep(g: Grouping, how: Aggregation, x: seq<Obs>, ds: seq<Date>, k: int)
    requires |x| == |ds| && k > 0 && Anchored(g, ds, k - 1)
    requires ValuesMatch(g, how, x, ds, k - 1)
    ensures ValuesMatch(g, how, x, ds, k)
  {
    AnchoredGroupFits(g, ds, k - 1);
    var before, vs := Anchors(g, ds, k - 1), Values(g, how, x, ds, k - 1);
    var A, V := Anchors(g, ds, k), Values(g, how, x, ds, k);
    assert A == before + [k - 1];
    assert V == vs + [Aggregate(how, Group(g, x, k - 1))];
    forall i | 0 <= i < |A| ensures V[i] == Aggregate(how, Group(g, x, A[i])) {
      if i < |before| {
        assert A[i] == before[i] && V[i] == vs[i];
      }
    }
  }

  /** The scan collects one label per anchor, in anchor order: the first date
      of the anchored group. */
  lemma {:induction false} LabelsAtAnchors(g: Grouping, ds: seq<Date>, k: int)
    decreases k
    ensures LabelsMatch(g, ds, k)
  {
    if k > 0 {
      LabelsAtAnchors(g, ds, k - 1);
      if Anchored(g, ds, k - 1) {
        LabelsAnchoredStep(g, ds, k);
      } else {
        assert Anchors(g, ds, k) == Anchors(g, ds, k - 1);
      }
    }
  }

  /** One label per anchor, each its group's first date. */
  predicate LabelsMatch(g: Grouping, ds: seq<Date>, k: int) {
    && |Labels(g, ds, k)| == |Anchors(g, ds, k)|
    && forall i :: 0 <= i < |Anchors(g, ds, k)| ==>
         0 <= Start(g, Anchors(g, ds, k)[i]) < |ds| && Labels(g, ds, k)[i] == ds[Start(g, Anchors(g, ds, k)[i])]
  }

  /** An anchor at `k - 1` appends its group's first date. */
  lemma LabelsAnchoredStep(g: Grouping, ds: seq<Date>, k: int)
    requires k > 0 && Anchored(g, ds, k - 1)
    requires LabelsMatch(g, ds, k - 1)
    ensures LabelsMatch(g, ds, k)
  {
    AnchoredGroupFits(g, ds, k - 1);
    var before, ls := Anchors(g, ds, k - 1), Labels(g, ds, k - 1);
    var A, L := Anchors(g, ds, k), Labels(g, ds, k);
    assert A == before + [k - 1];
    assert L == ls + [ds[Start(g, k - 1)]];
    forall i | 0 <= i < |A| ensures 0 <= Start(g, A[i]) < |ds| && L[i] == ds[Start(g, A[i])] {
      if i < |before| {
        assert A[i] == before[i] && L[i] == ls[i];
      }
    }
  }

  function TargetPerYear(g: Grouping): PerYear {
    if g == MonthsToQuarter then 4 else 1
  }

  function TargetFreq(g: Grouping): string {
    if g == MonthsToQuarter then "Quarterly" else "Annual"
  }

  /** The fields a conversion keeps from the copy it starts from. */
  predicate KeepsDescription(s: Series, r: Series) {
    && r.title == s.title && r.units == s.units && r.source == s.source && r.updated == s.updated
    && r.idCode == s.idCode && r.season == s.season && r.cycle == s.cycle && r.trend == s.trend
  }

  /** The converted series: a copy with the collected values and labels, the
      target `t` and `freq`, and a fresh range label, which fails when no
      group was complete. */
  function Converted(s: Series, g: Grouping, how: Aggregation): (r: Result<Series>)
    requires Valid(s)
    ensures r.Err? <==> |Anchors(g, s.dates, Stop(g, |s.dates|))| == 0
    ensures r.Err? ==> r.error == IndexError
    ensures r.Ok? ==>
      var A := Anchors(g, s.dates, Stop(g, |s.dates|));
      && Valid(r.value) && |r.value.data| == |A|
      && (forall i :: 0 <= i < |A| ==>
            r.value.data[i] == Aggregate(how, Group(g, s.data, A[i]))
            && r.value.dates[i] == s.dates[Start(g, A[i])])
    ensures r.Ok? ==> r.value.t == TargetPerYear(g) && r.value.freq == TargetFreq(g)
    ensures r.Ok? ==> r.value.daterange == RangeText(r.value.dates) && r.value.arrayDates
    ensures r.Ok? ==> KeepsDescription(s, r.value)
  {
    var n := Stop(g, |s.data|);
    ValuesAtAnchors(g, how, s.data, s.dates, n);
    LabelsAtAnchors(g, s.dates, n);
    WithRange(s.(data := Values(g, how, s.data, s.dates, n),
                 dates := Labels(g, s.dates, n),
                 t := TargetPerYear(g),
                 freq := TargetFreq(g),
                 arrayDates := true))
  }

  /** Nothing is collected before the scan starts. */
  lemma NothingBeforeFirst(g: Grouping, how: Aggregation, x: seq<Obs>, ds: seq<Date>, k: int)
    requires |x| == |ds| && k <= First(g)
    ensures Values(g, how, x, ds, k) == [] && Labels(g, ds, k) == []
  {
    if k == 1 {
      assert !Anchored(g, ds, 0);
    }
  }

  /** What index `k` adds to the values and labels: its group when it is an
      anchor, nothing otherwise. */
  function Emitted(g: Grouping, how: Aggregation, x: seq<Obs>, ds: seq<Date>, k: int): (seq<Obs>, seq<Date>)
    requires |x| == |ds|
  {
    if Anchored(g, ds, k) then
      AnchoredGroupFits(g, ds, k);
      ([Aggregate(how, Group(g, x, k))], [ds[Start(g, k)]])
    else ([], [])
  }

  /** One step of the scan appends what index `k` emits. */
  lemma ScanStep(g: Grouping, how: Aggregation, x: seq<Obs>, ds: seq<Date>, k: nat)
    requires |x| == |ds|
    ensures Values(g, how, x, ds, k + 1) == Values(g, how, x, ds, k) + Emitted(g, how, x, ds, k).0
    ensures Labels(g, ds, k + 1) == Labels(g, ds, k) + Emitted(g, how, x, ds, k).1
  {
  }

  /** The scan loop shared by the three conversions. */
  method Collect(s: Series, g: Grouping, how: Aggregation) returns (vals: seq<Obs>, labels: seq<Date>)
    requires Valid(s)
    ensures vals == Values(g, how, s.data, s.dates, Stop(g, |s.data|))
    ensures labels == Labels(g, s.dates, Stop(g, |s.dates|))
  {
    vals, labels := [], [];
    var k := First(g);
    var stop := Stop(g, |s.data|);
    NothingBeforeFirst(g, how, s.data, s.dates, k);
    if stop < k {
      NothingBeforeFirst(g, how, s.data, s.dates, stop);
      return;
    }
    while k < stop
      invariant First(g) <= k <= stop
      invariant vals == Values(g, how, s.data, s.dates, k)
      invariant labels == Labels(g, s.dates, k)
    {
      ScanStep(g, how, s.data, s.dates, k);
      var e := Emitted(g, how, s.data, s.dates, k);
      vals, labels := vals + e.0, labels + e.1;
      k := k + 1;
    }
  }

  /** `s.monthtoquarter(method)`. */
  method MonthToQuarter(s: Series, how: Aggregation) returns (r: Result<Series>)
    requires Valid(s)
    ensures r == Converted(s, MonthsToQuarter, how)
  {
    var vals, labels := Collect(s, MonthsToQuarter, how);
    r := WithRange(s.(data := vals, dates := labels, t := 4, freq := "Quarterly", arrayDates := true));
  }

  /** `s.quartertoannual(method)`. */
  method QuarterToAnnual(s: Series, how: Aggregation) returns (r: Result<Series>)
    requires Valid(s)
    ensures r == Converted(s, QuartersToYear, how)
  {
    var vals, labels := Collect(s, QuartersToYear, how);
    r := WithRange(s.(data := vals, dates := labels, t := 1, freq := "Annual", arrayDates := true));
  }

  /** `s.monthtoannual(method)` as written: after the scan it assigns to a
      result object it never created, so every call raises NameError. */
  method MonthToAnnualAsWritten(s: Series, how: Aggregation) returns (r: Result<Series>)
    requires Valid(s)
    ensures r == Err(NameError)
  {
    var vals, labels := Collect(s, MonthsToYear, how);
    r := Err(NameError);
  }

  /** `s.monthtoannual(method)` as intended: a copy of the series with the
      collected values, as `quartertoannual` builds it. */
  method MonthToAnnual(s: Series, how: Aggregation) returns (r: Result<Series>)
    requires Valid(s)
    ensures r == Converted(s, MonthsToYear, how)
  {
    var vals, labels := Collect(s, MonthsToYear, how);
    r := WithRange(s.(data := vals, dates := labels, t := 1, freq := "Annual", arrayDates := true));
  }

  /** Every anchor yields exactly one output, carrying its group's aggregate
      and first date. */
  lemma EveryAnchorConverted(s: Series, g: Grouping, how: Aggregation, k: int)
    requires Valid(s) && Anchored(g, s.dates, k)
    ensures Converted(s, g, how).Ok?
    ensures var r := Converted(s, g, how).value;
      exists i :: 0 <= i < |r.data|
        && r.data[i] == Aggregate(how, Group(g, s.data, k)) && r.dates[i] == s.dates[Start(g, k)]
  {
    AnchoredGroupFits(g, s.dates, k);
    var A := Anchors(g, s.dates, Stop(g, |s.dates|));
    AnchorsComplete(g, s.dates, Stop(g, |s.dates|));
    assert k in A;
    var i :| 0 <= i < |A| && A[i] == k;
    var r := Converted(s, g, how).value;
    assert r.data[i] == Aggregate(how, Group(g, s.data, k)) && r.dates[i] == s.dates[Start(g, k)];
  }

  /** A converted series of two or more dates cannot be combined with any
      series: its dates are an array, and the combinators' date guard on it
      raises ValueError even against the same dates. */
  lemma ConvertedNotCombinable(s: Series, g: Grouping, how: Aggregation, b: Series, op: Operator)
    requires Valid(s) && Valid(b) && Converted(s, g, how).Ok? && |Converted(s, g, how).value.dates| >= 2
    ensures Combine(Converted(s, g, how).value, b, op) == Err(ValueError)
    ensures Combine(b, Converted(s, g, how).value, op) == Err(ValueError)
  {
  }

  /** Labels of a series with increasing dates are increasing. */
  lemma ConvertedIncreasing(s: Series, g: Grouping, how: Aggregation)
    requires Valid(s) && Increasing(s.dates) && Converted(s, g, how).Ok?
    ensures Increasing(Converted(s, g, how).value.dates)
  {
    var A := Anchors(g, s.dates, Stop(g, |s.dates|));
    AnchorsIncreasing(g, s.dates, Stop(g, |s.dates|));
    var ls := Converted(s, g, how).value.dates;
    forall i, j | 0 <= i < j < |ls| ensures Before(ls[i], ls[j]) {
      AnchoredGroupFits(g, s.dates, A[i]);
      AnchoredGroupFits(g, s.dates, A[j]);
      assert Start(g, A[i]) < Start(g, A[j]);
    }
  }

  /** The corrected `monthtoannual` returns a series wherever the written one
      raises NameError, as soon as a January starts a full year. */
  lemma MonthToAnnualSucceeds(s: Series, how: Aggregation, k: int)
    requires Valid(s) && 0 <= k && k + 12 <= |s.dates| && s.dates[k].month == 1
    ensures Converted(s, MonthsToYear, how).Ok?
    ensures Converted(s, MonthsToYear, how).value.t == 1
  {
    EveryAnchorConverted(s, MonthsToYear, how, k);
  }

  /** January to March valued 1, 2 and 3, summed, give 6 for the quarter
      labelled January. */
  lemma QuarterSumExample(s: Series)
    requires Valid(s) && s.data == [Val(1.0), Val(2.0), Val(3.0)]
    requires s.dates == [Date(2020, 1, 1), Date(2020, 2, 1), Date(2020, 3, 1)]
    ensures Converted(s, MonthsToQuarter, BySum).Ok?
    ensures Converted(s, MonthsToQuarter, BySum).value.data == [Val(6.0)]
    ensures Converted(s, MonthsToQuarter, BySum).value.dates == [Date(2020, 1, 1)]
  {
    var g := MonthsToQuarter;
    assert !Anchored(g, s.dates, 0) && Anchored(g, s.dates, 1);
    assert Values(g, BySum, s.data, s.dates, 1) == [] && Labels(g, s.dates, 1) == [];
    GroupOfAnchor(g, s.data, 1);
    assert Aggregate(BySum, Group(g, s.data, 1)) == Val(6.0);
    assert Values(g, BySum, s.data, s.dates, 2) == [Val(6.0)];
    assert Labels(g, s.dates, 2) == [Date(2020, 1, 1)];
  }
}
