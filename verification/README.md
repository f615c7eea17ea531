# fredpy series transforms in Dafny

This project models the `series` value type of fredpy and the structural
transforms on it. A series is a FRED economic time series: parallel
`data`/`dates` sequences, the periods-per-year constant `t`, descriptive
metadata (`title`, `units`, `source`, `updated`, `idCode`, `freq`,
`daterange`, `season`) and the optional `cycle`/`trend` arrays that the
filters attach.

Every transform builds a fresh series and leaves its receiver untouched, so
`Series` is a datatype. Each transform is a function returning
`Result<Series>`. The source's exceptions become `Err(ValueError)`,
`Err(IndexError)` and `Err(NameError)`. The IndexError is usually raised by
`dates[0]` while the range label is built. Where the source runs a loop, the
loop is a `method` proved equal to the function that specifies it:
- the two linear searches of `window`;
- the mean-appending loops of `ma1side`/`ma2side`;
- the anchored scans of the frequency conversions;
- the list-building loop of `window_equalize`;
- the header and observation loops of the constructor.

Modules:

- `Outcome`: `Error`, `Result`, `Option`.
- `Observations`: an observation is `Val(r)` or `Missing`, standing for
  NaN. Arithmetic propagates `Missing`, and a division by zero also gives
  `Missing`. `Sum` adds left to right. `Mean` is `np.mean`, which is NaN on
  an empty slice.
- `Slicing`: Python's `s[i:j]`, with negative bounds and clipping, so that
  `recent(0)`, `dates[:T-t]` and `dates[L:-L]` behave as in Python.
- `Calendar`: dates as (year, month, day) in calendar order, with `min`/`max`
  over them and the 'YYYY-MM-DD' label.
- `TimeSeries`: the `Series` record, `copy`, and the 'Range: first to last'
  label. The flag `arrayDates` records that `dates` is a NumPy array rather
  than a list. The frequency conversions build their dates with `np.append`,
  and slicing an array gives an array, so the flag is set by the conversions
  and kept by every other transform. It matters to the combinators: their
  guard `self.dates != series2.dates` compares an array element by element,
  and Python's `if` on the resulting array raises ValueError unless it holds
  a single element.
- `Combinators`: `plus`/`minus`/`times`/`divide`. Each member covers both
  the series method and the module-level function of the same name
  (`fredpy/__init__.py:1189-1410`), which differ only in the wording of the
  error message.
- `PercentChange`: `pc` and `apc` in their non-log form.
- `Smoothing`: `ma1side`, `ma2side` and `firstdiff`.
- `Windows`: `window`, `recent` and `window_equalize`.
- `Conversions`: `monthtoquarter`, `quartertoannual` and `monthtoannual`, as
  one scan with three groupings: 3 months anchored on the middle month, 4
  quarters anchored on January, 12 months anchored on January.
- `RawLines`: the constructor's reading of a FRED text file whose lines are
  already in hand. It covers the header-line classification, the frequency
  label → `t` mapping, `str.split`, the 'DATE' marker and the '.' → missing
  rule.

## Model

| member | source | states |
|---|---|---|
| Slicing.SliceInside | fredpy/__init__.py:1156-1157 | A slice whose bounds are inside the sequence is the plain subsequence. |
| Slicing.SliceWhole | fredpy/__init__.py:1164-1168 | Slicing from 0 to at least the length keeps everything. |
| Slicing.DropOne | fredpy/__init__.py:333 | `x[1:]` drops the first element and `x[0:-1]` the last. Both are empty on an empty sequence. |
| Slicing.NegativeBound | fredpy/__init__.py:877 | A negative bound with |i| <= n names the same place as the bound i + n. |
| Slicing.SliceFromEnd | fredpy/__init__.py:877-878 | For 0 < k <= T, `s[-k:]` is the last k elements. |
| Slicing.SliceSplit | fredpy/__init__.py:1156-1157 | For 0 <= i <= j <= k, `s[i:j] + s[j:k] == s[i:k]`, also when the bounds are clipped at the end. |
| Calendar.BeforeTransitive | fredpy/__init__.py:1146 | Date order is transitive. |
| Calendar.NotBeforeTransitive | fredpy/__init__.py:1152 | x <= y and y <= z give x <= z. |
| Calendar.NotBeforeThenBefore | fredpy/__init__.py:1152 | x <= y and y < z give x < z. |
| Calendar.Earliest | fredpy/__init__.py:1468 | `min` of dates returns one of them, and no date is earlier. |
| Calendar.Latest | fredpy/__init__.py:1467 | `max` of dates returns one of them, and no date is later. |
| Calendar.EndsOfIncreasing | fredpy/__init__.py:1144-1150 | On increasing dates, `min` is the first date and `max` the last. |
| TimeSeries.Copy | fredpy/__init__.py:233-264 | The copy equals the original in every field, including `cycle` and `trend`. |
| Observations.Shifted | fredpy/__init__.py:335 | `dy - gam` has one element per element of `dy`, and element i is `dy[i] - gam`. |
| Observations.SumPresent | fredpy/__init__.py:334 | A sum is a number exactly when no term is missing (NaN propagates). |
| Observations.SumShifted | fredpy/__init__.py:335 | Subtracting c from each of n present terms lowers their sum by n·c. |
| Observations.DemeanedSumsToZero | fredpy/__init__.py:333-335 | Present terms minus their mean sum to zero. |
| Observations.MeanOfOne | fredpy/__init__.py:462 | The mean of one observation is that observation. |
| Observations.SumOfConstant | fredpy/__init__.py:462 | n copies of c sum to n·c. |
| Observations.MeanOfConstant | fredpy/__init__.py:462 | The mean of copies of c is c. |
| Combinators.Combine | fredpy/__init__.py:283-307 | Fails with ValueError exactly when the date guard fires. For two lists this means the date lists differ. When either side's dates are an array (`arrayDates`), the call succeeds only if both sides hold one equal date. Otherwise: same length; `data[i]` is the operator on the two i-th observations; `dates` (and its array-ness), `freq`, `t` and `daterange` come from the first operand; `source`/`updated` are kept when equal, else joined with ' and '; `idCode` is always joined; title and units are joined by the operator's word and sign; `season`, `cycle` and `trend` are not set. |
| Combinators.Plus | fredpy/__init__.py:767-811 | As `Combine`, with `+`, ' plus ' and ' + '. Also covers module-level `plus` (fredpy/__init__.py:1282-1327). |
| Combinators.Minus | fredpy/__init__.py:500-544 | As `Combine`, with `-`, ' minus ' and ' - '. Also covers module-level `minus` (fredpy/__init__.py:1235-1280). |
| Combinators.Times | fredpy/__init__.py:1067-1111 | As `Combine`, with `*`, ' times ' and ' x '. Also covers module-level `times` (fredpy/__init__.py:1366-1410). |
| Combinators.Divide | fredpy/__init__.py:266-310 | As `Combine`, with `/`, ' divided by ' and ' / '. Also covers module-level `divide` (fredpy/__init__.py:1189-1233). |
| Combinators.MinusCopyIsZero | fredpy/__init__.py:500-544 | A series minus its own copy succeeds exactly when its dates are a list or a one-element array. It is then 0 wherever observed and missing elsewhere, with dates, source and updated unchanged. |
| Combinators.PlusUndoesMinus | fredpy/__init__.py:767-811 | Whenever a − b succeeds, (a − b) + b also succeeds and gives back every observed value of a. |
| Combinators.TimesUndoesDivide | fredpy/__init__.py:1067-1111 | Whenever a / b succeeds, (a / b) · b also succeeds and gives back a wherever b is observed and nonzero. |
| Combinators.MulDivCancel | fredpy/__init__.py:305 | (x / y) · y = x for nonzero y. |
| Combinators.CommutativeData | fredpy/__init__.py:792-805 | Whenever `plus` or `times` succeeds, the swapped call succeeds too; the metadata may differ but the observations do not. |
| PercentChange.LagChanges | fredpy/__init__.py:135 | `100*(x[lag:]/x[0:-lag] - 1)` has max(0, T − lag) entries. Entry i compares observation i + lag with observation i. |
| PercentChange.Pc | fredpy/__init__.py:646-692 | Fails with IndexError exactly when there is at most one date. Otherwise: T − 1 values, `v[i] = 100(x[i+1]/x[i] − 1)`, times `t` when annualized; dates `dates[1:]` (backward) or `dates[:-1]` (forward); units 'Percent'; the title prefixed; the range label rebuilt; `t`, `source`, `updated`, `idCode`, `freq`, `season`, `cycle`, `trend` and the dates' array-ness kept. |
| PercentChange.AnnualizedPc | fredpy/__init__.py:671-672 | `annualized=True` succeeds exactly when the plain call does, with the same dates and every value multiplied by `t`. |
| PercentChange.PcExample | fredpy/__init__.py:668-676 | Observations 100 and 110 give one change of 10.0, dated with the second date backward and the first date forward. |
| PercentChange.ApcAsWritten | fredpy/__init__.py:114-148 | As written: backward fails with IndexError exactly when T <= t; forward fails exactly when T = t or 2T <= t, and otherwise labels with `dates[:T-t]`, which for T < t counts from the end. The values are the lag-t changes; units, title, range label and identity fields as for `Apc`. |
| PercentChange.ApcAsWrittenMisaligned | fredpy/__init__.py:139 | As written, forward `apc` on a series with t/2 < T < t succeeds with no values but 2T − t dates, so data and dates do not pair up. |
| PercentChange.ApcAsWrittenExample | fredpy/__init__.py:139 | As written, eight monthly observations give forward `apc` no values and four dates. |
| PercentChange.Apc | fredpy/__init__.py:114-148 | As corrected: fails with IndexError exactly when T <= t. Otherwise: T − t values, `v[i] = 100(x[i+t]/x[i] − 1)`; dates `dates[t:]` or `dates[:T-t]`; units 'Percent'; the title prefixed; the identity fields kept. |
| PercentChange.ApcAgreesFromOneYear | fredpy/__init__.py:136-139 | For series of at least one year, the corrected `apc` is exactly the written one. |
| PercentChange.GrowthInverse | fredpy/__init__.py:135 | A reported change v recovers the next value as prev · (1 + v/100). |
| PercentChange.GrowthDefined | fredpy/__init__.py:135 | A change is a number exactly when both observations are present and the earlier one is nonzero. |
| PercentChange.AnnualizedGrowthInverse | fredpy/__init__.py:672 | An annualized change divided by `t` recovers the next value in the same way. |
| PercentChange.PcInverse | fredpy/__init__.py:670 | Every `pc` value recovers the following observation from the current one. |
| PercentChange.PcAnnualizedInverse | fredpy/__init__.py:670-672 | Every annualized `pc` value, divided by `t`, recovers the following observation. |
| PercentChange.LagChangeInverse | fredpy/__init__.py:135 | Every lag-`lag` change recovers the observation `lag` periods on. |
| PercentChange.ApcData | fredpy/__init__.py:141 | The values `apc` reports are exactly the lag-`t` changes. |
| PercentChange.ApcInverse | fredpy/__init__.py:133-141 | Every `apc` value recovers the observation one year on. |
| PercentChange.ApcOfAnnualIsPc | fredpy/__init__.py:130-145 | With t = 1, `apc` succeeds exactly when `pc` does, and equals it except for the title. |
| PercentChange.PcDirections | fredpy/__init__.py:673-676 | Backward and forward `pc` report the same values. Backward labels value i with date i+1, forward with date i. |
| Smoothing.WindowMeans | fredpy/__init__.py:461-462 | One mean per start index; entry s is the mean of `data[s..s+width)` whenever that window is inside the data. |
| Smoothing.MovingMeans | fredpy/__init__.py:460-462 | The `z` loop builds exactly the window means. |
| Smoothing.OneSided | fredpy/__init__.py:446-470 | Fails with IndexError exactly when there are no dates or L > T. For L >= 1: T − L + 1 values, `z[s] = mean(data[s..s+L))`, dates `dates[L-1:]`; title suffixed; range label rebuilt; units, `t`, `source`, `updated`, `idCode`, `freq`, `season`, `cycle`, `trend` and array-ness kept. |
| Smoothing.MovingAverageExample | fredpy/__init__.py:460-465 | A two-period moving average of 2, 4, 6, 8 is 3, 5, 7, dated from the second date on. |
| Smoothing.Ma1Side | fredpy/__init__.py:460-467 | The loop version equals `OneSided`. |
| Smoothing.TwoSided | fredpy/__init__.py:472-498 | For L >= 0, fails with IndexError exactly when L = 0 or T <= 2L. For L >= 1: T − 2L values, `z[s] = mean(data[s..s+2L))`, dates `dates[L:T-L]`; title suffixed; range label rebuilt; units and the identity fields kept. |
| Smoothing.Ma2Side | fredpy/__init__.py:488-495 | The loop version equals `TwoSided`. |
| Smoothing.OneSidedOfOne | fredpy/__init__.py:461-465 | A width-1 moving average leaves data and dates as they were. |
| Smoothing.TwoSidedIsCentred | fredpy/__init__.py:489-493 | `ma2side(L)` takes the first T − 2L means of `ma1side(2L)` and dates each L periods later instead of 2L − 1. |
| Smoothing.OneSidedOfConstant | fredpy/__init__.py:462 | The moving average of a constant series is that constant. |
| Smoothing.Diffs | fredpy/__init__.py:333 | `x[1:] - x[0:-1]` has T − 1 entries, entry i being x[i+1] − x[i]. |
| Smoothing.FirstDiffCycle | fredpy/__init__.py:330-344 | Fails with IndexError exactly when T <= 1. Otherwise the cycle has T − 1 values `(x[i+1] − x[i]) − mean(dy)`, dates `dates[1:]`, the units 'Deviation relative to trend', its title, the rebuilt range label and the identity fields kept. |
| Smoothing.FirstDiffTrend | fredpy/__init__.py:347-351 | Fails with IndexError exactly when T <= 1. Otherwise the trend is `data[0:-1]` dated `dates[1:]`, units kept, title suffixed, range label rebuilt, identity fields kept. |
| Smoothing.FirstDiff | fredpy/__init__.py:312-353 | Fails exactly when T <= 1; otherwise the pair is (cycle, trend). |
| Smoothing.FirstDiffCycleSumsToZero | fredpy/__init__.py:333-341 | With no missing observation, the cycle sums to zero. |
| Smoothing.FirstDiffReconstructs | fredpy/__init__.py:333-349 | Cycle + mean change + trend gives back the next observation. |
| Windows.FirstNotBefore | fredpy/__init__.py:1145-1148 | The search stops at the first date not before `win_min`; every earlier date is before it. |
| Windows.FirstAfter | fredpy/__init__.py:1151-1154 | The search stops at the first date after `win_max`; no earlier date is after it. |
| Windows.Restrict | fredpy/__init__.py:1156-1168 | Fails with IndexError exactly when the slice is empty. Otherwise: `dates` and `data` are sliced by [min0, max0); a `cycle`/`trend` as long as the dates is sliced by the same bounds, and one that is present stays present; the label is 'first to last' with no prefix; the descriptive fields and the dates' array-ness are kept. |
| Windows.RestrictWhole | fredpy/__init__.py:1156-1168 | Restricting a window's result to all of it gives the result back. |
| Windows.Windowed | fredpy/__init__.py:1114-1170 | Fails exactly when there are no dates (ValueError, from `min`) or the searches give an empty slice (IndexError). Otherwise the dates are `dates[min0:max0]`, the label is 'first to last' and the descriptive fields are kept. |
| Windows.Window | fredpy/__init__.py:1114-1170 | The two searches and the slice equal `Windowed`. |
| Windows.WindowKeepsExactlyInRange | fredpy/__init__.py:1140-1168 | On increasing dates with `win_min` not after the last date, index i is kept exactly when `win_min <= dates[i] <= win_max`, and the window fails exactly when no date lies inside. |
| Windows.KeptNotAfterMax | fredpy/__init__.py:1150-1154 | No date before `max0` is after `win_max`. |
| Windows.KeptFromMin | fredpy/__init__.py:1144-1148 | The date at `min0` is not before `win_min`, unless every date is before it and `min0` stays 0. |
| Windows.LowerIndexZero | fredpy/__init__.py:1144-1148 | `min0` is 0 when the first date reaches `win_min` or no date does. |
| Windows.UpperIndexAll | fredpy/__init__.py:1150-1154 | `max0` is T when no date is after `win_max`. |
| Windows.WindowIdempotent | fredpy/__init__.py:1114-1170 | Windowing a window with the same bounds changes nothing. |
| Windows.BoundsOfWindow | fredpy/__init__.py:1140-1154 | Searching a window's own dates again finds 0 and its length. |
| Windows.Recent | fredpy/__init__.py:863-882 | Fails with IndexError exactly when there are no dates or N <= −T. Otherwise: dates and data are a common suffix; cycle, trend, the descriptive fields and the dates' array-ness are kept; the label is 'Range: first to last'. |
| Windows.RecentLength | fredpy/__init__.py:877-878 | 0 < N <= T keeps N observations; N = 0 or N >= T keeps all; N < 0 drops the first −N. |
| Windows.RecentIsWindow | fredpy/__init__.py:877-878 | On increasing dates, `recent(N)` keeps what the window from the N-th last date to the last keeps. |
| Windows.RecentWindowBounds | fredpy/__init__.py:1144-1154 | That window's searches find T − N and T. |
| Windows.Equalized | fredpy/__init__.py:1453-1473 | A successful `window_equalize` returns one series per input. |
| Windows.EqualizedFails | fredpy/__init__.py:1470-1471 | Any series whose window fails makes the whole call fail with that error. |
| Windows.EqualizedCollected | fredpy/__init__.py:1463-1473 | The windows of all inputs, in order, are the result. |
| Windows.WindowEqualize | fredpy/__init__.py:1463-1473 | The appending loop equals `Equalized`. |
| Windows.WindowAfterEndFails | fredpy/__init__.py:1150-1160 | A series starting at or after `win_min` but after `win_max` gets an empty window, hence an error. |
| Windows.WindowedInRange | fredpy/__init__.py:1140-1157 | A non-empty window of increasing dates reaching `win_min` keeps only dates inside the window. |
| Windows.EqualizedWindows | fredpy/__init__.py:1465-1471 | On success the inputs are non-empty and output i is input i windowed to [max of first dates, min of last dates]. |
| Windows.ReachesCommonStart | fredpy/__init__.py:1465-1468 | When the series that starts at `win_min` has a non-empty window, every series reaches `win_min`. |
| Windows.EqualizedInsideCommonRange | fredpy/__init__.py:1463-1471 | On increasing dates, every date `window_equalize` keeps lies in [max of first dates, min of last dates]. |
| Conversions.AnchoredGroupFits | fredpy/__init__.py:620-622 | Every anchor lies in the scan range, and its whole group lies inside the series. |
| Conversions.GroupOfAnchor | fredpy/__init__.py:619-633 | A quarter is `x[k-1], x[k], x[k+1]` summed left to right; a year is `x[k..k+4)` or `x[k..k+12)`. The average is the sum divided by the group size, and the end value is `x[k+1]` or the group's last element (the annual scans at lines 566-585 and 835-852 group the same way). |
| Conversions.Anchors | fredpy/__init__.py:620-621 | Every listed index passes the anchor test and lies below the scan bound. |
| Conversions.AnchorsIncreasing | fredpy/__init__.py:620 | Anchors are listed in increasing order. |
| Conversions.AnchorsComplete | fredpy/__init__.py:620-621 | Every index below the bound that passes the test is listed. |
| Conversions.ValuesAtAnchors | fredpy/__init__.py:619-633 | The scan emits one value per anchor, the aggregate of its group. |
| Conversions.LabelsAtAnchors | fredpy/__init__.py:623 | The scan emits one label per anchor, the group's first date. |
| Conversions.Converted | fredpy/__init__.py:612-641 | Fails with IndexError exactly when no group is complete. Otherwise: one value and one date per anchor (aggregate, first date); target `t` and `freq`; range label rebuilt; dates marked as an array; title, units, source, updated, idCode, season, cycle and trend kept. |
| Conversions.NothingBeforeFirst | fredpy/__init__.py:620 | Nothing is collected before the scan starts. |
| Conversions.ScanStep | fredpy/__init__.py:620-623 | Scanning index k appends its group's value and label when k is an anchor, else nothing. |
| Conversions.Collect | fredpy/__init__.py:617-633 | The appending loop builds exactly the scan's values and labels. |
| Conversions.MonthToQuarter | fredpy/__init__.py:597-643 | Equals `Converted` with 3-month groups anchored on Feb/May/Aug/Nov strictly inside the series, labelled with the previous month. |
| Conversions.QuarterToAnnual | fredpy/__init__.py:813-861 | Equals `Converted` with 4-quarter groups starting in January with at least four observations left. |
| Conversions.MonthToAnnualAsWritten | fredpy/__init__.py:587 | As written, every call raises NameError. |
| Conversions.MonthToAnnual | fredpy/__init__.py:546-594 | As intended, equals `Converted` with 12-month groups starting in January with at least twelve observations left. |
| Conversions.EveryAnchorConverted | fredpy/__init__.py:835-852 | Every anchor yields an output carrying its group's aggregate and first date. |
| Conversions.ConvertedIncreasing | fredpy/__init__.py:619-633 | Increasing dates give increasing output labels. |
| Conversions.MonthToAnnualSucceeds | fredpy/__init__.py:569-587 | Whenever a January starts a full year, the corrected `monthtoannual` succeeds with t = 1 where the written one raises NameError. |
| Conversions.ConvertedNotCombinable | fredpy/__init__.py:283 | A converted series with two or more dates cannot be combined with any series, on either side: the date guard raises ValueError. |
| Conversions.QuarterSumExample | fredpy/__init__.py:624-628 | Jan–Mar valued 1, 2, 3 give one quarter of sum 6, labelled January. |
| RawLines.WordAtStart | fredpy/__init__.py:56 | The first word is no longer than the line, and non-empty when the line starts with a non-space. |
| RawLines.WordAtStartIsMaximal | fredpy/__init__.py:56 | The first word is a space-free prefix ending at a space or at the end of the line. |
| RawLines.WordsHaveNoSpace | fredpy/__init__.py:56 | Every word of `split()` is non-empty and space-free. |
| RawLines.FrequencyLabels | fredpy/__init__.py:61-72 | 'Daily…', 'Weekly…', 'Monthly…', 'Quarterly…' and 'Annual…' set t = 365, 52, 12, 4 and 1. |
| RawLines.OtherInitial | fredpy/__init__.py:63-71 | A label does not match a prefix with a different first letter. |
| RawLines.UnknownFrequency | fredpy/__init__.py:61-72 | Any other label leaves `t` unset. |
| RawLines.NoTitleLine | fredpy/__init__.py:54-56 | With no Title line before 'DATE', the title is never set. |
| RawLines.LastTitleWins | fredpy/__init__.py:54-56 | The title is the rest of the last Title line. |
| RawLines.FirstMarker | fredpy/__init__.py:79-81 | The marker found is a 'DATE' line, and no line before it is one. |
| RawLines.Rows | fredpy/__init__.py:87-92 | Read successfully, line i gives date i and value i. |
| RawLines.Parsed | fredpy/__init__.py:54-96 | With no 'DATE' line the read raises NameError. |
| RawLines.ScanHeader | fredpy/__init__.py:54-81 | The header loop stops at the first 'DATE' line, or at the end when there is none, having absorbed every line before it. |
| RawLines.MarkerAt | fredpy/__init__.py:79-81 | A 'DATE' line with none before it is the first marker. |
| RawLines.ReadRows | fredpy/__init__.py:87-92 | The observation loop equals `Rows` and stops at the first bad line. |
| RawLines.Read | fredpy/__init__.py:41-96 | The two loops together equal `Parsed`. |
| RawLines.RowsFailAfter | fredpy/__init__.py:87-92 | Once a line fails, the read fails with that error. |
| RawLines.ParsedObservations | fredpy/__init__.py:80-96 | A successful read has one observation per line after 'DATE'. Each date is the line's first word; each value is missing for '.' and otherwise `float` of the second word. The header is that of the lines before 'DATE'. |
| RawLines.RowsRead | fredpy/__init__.py:87-92 | Rows read successfully are read from their own lines. |
| RawLines.RowFacts | fredpy/__init__.py:88-92 | A line read as (date, v) has date as its first word, and v is missing exactly for '.'. |
| RawLines.BadValueFails | fredpy/__init__.py:89-90 | A value token that is neither '.' nor a number makes the read fail, with IndexError or ValueError from the first bad line. |
| RawLines.FirstBadRow | fredpy/__init__.py:87-92 | A failed read reports the error of its first bad line; every line before it was read. |

## Left out

- The download (`urllib`, `fredpy/__init__.py:44-52`) is not modelled. `RawLines.Read` takes the lines of the file as a parameter. The branch of the constructor that builds an empty series with `None` fields is not modelled either.
- `float` on a value token is the parameter `number`. Turning the date strings of a read into `Date` values (`dateutil`) is not modelled. `RawLines.Download` keeps the date strings; every other transform works on `Date` values.
- The `datetimes` field is derived from `dates` by `dateutil` and is not a field of the model.
- The header fields the constructor assigns on `self` are gathered in a `Header` value instead. A field never assigned is `None`; in the source that attribute is simply missing.
- The `log=True` branches of `pc`/`apc`, the `log` method and every transcendental or IEEE-754 detail (rounding, inf vs NaN) are left out. Reals are exact, and a division by zero is `Missing`.
- Only the method strings the source recognises are modelled ('backward'/'forward' and 'average'/'sum'/'end', as enumerations). Any other string leaves `dte` unbound in `pc`/`apc` (NameError), makes `monthtoquarter` and `quartertoannual` raise IndexError at `new_series.dates[0]` (fredpy/__init__.py:641, 859) after an empty scan, and makes `monthtoannual` fail as it always does. None of these is modelled.
- `bpfilter`, `cffilter`, `hpfilter` and `lintrend` rely on statsmodels and are left out. `percapita` fetches further series over the network. `recessions` and `quickplot` plot; `date_times` is a plotting helper.
- The frequency warnings the conversions print are left out.
- Windows.Window: the window bounds are `Date` values. The source parses them from strings in either 'yyyy-mm-dd' or 'mm-dd-yyyy' form; that parsing is not modelled.
- TimeSeries.Copy: the source's copy shares the arrays with the original. Values here are immutable, so the sharing is unobservable.
- Windows.Equalized states only the result's length. Its contents and failure cases are in `EqualizedWindows`, `EqualizedFails` and `EqualizedInsideCommonRange`.
- RawLines.Parsed states only the missing-marker case. The successful and failing reads are `ParsedObservations` and `BadValueFails`.
- Combinators.Combine: a one-date array against an empty list compares as an empty array, which older NumPy takes as false, so the call went through; the model raises ValueError there. No transform in the model produces an empty array, so this needs a hand-built series.
- Integer widths are not modelled: `t` is any integer of at least 1, and lengths are unbounded.

## Findings

| source | as written | input that shows it | evidently intended | confidence | as-written member | corrected member |
|---|---|---|---|---|---|---|
| fredpy/__init__.py:587 | `monthtoannual` assigns to `new_series`, which it never created, so every call raises NameError | any series, e.g. twelve monthly observations starting in January | start from a copy and override `data`, `dates`, `t` and `freq`, as `quartertoannual` does at line 828 | not executed | Conversions.MonthToAnnualAsWritten | Conversions.MonthToAnnual |
| fredpy/__init__.py:139 | forward `apc` labels with `dates[:T-t]`; when T < t the negative bound counts from the end | eight monthly observations (T = 8, t = 12): no values but four dates | no dates when there are no values, i.e. the bound clipped at 0, after which the range label raises IndexError as for the backward direction | not executed | PercentChange.ApcAsWrittenMisaligned | PercentChange.Apc |
