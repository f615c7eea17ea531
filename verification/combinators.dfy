/** `plus`, `minus`, `times` and `divide`, both as series methods and as
    module-level functions: the two forms differ only in the wording of
    their ValueError message, so one member models each pair. */
module Combinators {
  import opened Observations
  import opened Outcome
  import opened TimeSeries

  datatype Operator = PlusOp | MinusOp | TimesOp | DivideOp

  function Apply(op: Operator, x: Obs, y: Obs): Obs {
    match op
    case PlusOp => Add(x, y)
    case MinusOp => Sub(x, y)
    case TimesOp => Mul(x, y)
    case DivideOp => Div(x, y)
  }

  /** The word joining the two titles. */
  function TitleWord(op: Operator): string {
    match op
    case PlusOp => " plus "
    case MinusOp => " minus "
    case TimesOp => " times "
    case DivideOp => " divided by "
  }

  /** The sign joining the two unit strings. */
  function UnitSign(op: Operator): string {
    match op
    case PlusOp => " + "
    case MinusOp => " - "
    case TimesOp => " x "
    case DivideOp => " / "
  }

  /** Provenance folding for `source` and `updated`. */
  function Fold(x: string, y: string): string {
    if x == y then x else x + " and " + y
  }

  /** Whether the guard `if a.dates != b.dates:` raises ValueError. Two lists
      compare as a whole. When either side is an array, `!=` compares date by
      date, broadcasting a single date, and `if` on the resulting array is
      defined only when it holds exactly one entry; a length mismatch that
      cannot broadcast fails as well. */
  predicate DatesRejected(a: Series, b: Series) {
    if a.arrayDates || b.arrayDates then !(|a.dates| == 1 && |b.dates| == 1 && a.dates == b.dates)
    else a.dates != b.dates
  }

  /** What every combinator result carries over from its operands: the date
      axis, frequency and range of the first operand; folded provenance; no
      season, cycle or trend (the result starts from an empty `series()`). */
  predicate Provenance(a: Series, b: Series, r: Series) {
    && r.dates == a.dates && r.arrayDates == a.arrayDates
    && r.freq == a.freq
    && r.t == a.t
    && r.daterange == a.daterange
    && r.source == (if a.source == b.source then a.source else a.source + " and " + b.source)
    && r.updated == (if a.updated == b.updated then a.updated else a.updated + " and " + b.updated)
    && r.idCode == a.idCode + " and " + b.idCode
    && r.season.None? && r.cycle.None? && r.trend.None?
  }

  /** Elementwise combination of two date-aligned series. */
  function Combine(a: Series, b: Series, op: Operator): (r: Result<Series>)
    requires Valid(a) && Valid(b)
    ensures r.Err? <==> DatesRejected(a, b)
    ensures r.Err? ==> r.error == ValueError
    ensures r.Ok? ==> Valid(r.value) && |r.value.data| == |a.data| && Provenance(a, b, r.value)
    ensures r.Ok? ==> forall i :: 0 <= i < |a.data| ==> r.value.data[i] == Apply(op, a.data[i], b.data[i])
    ensures r.Ok? ==> r.value.title == a.title + TitleWord(op) + b.title
    ensures r.Ok? ==> r.value.units == a.units + UnitSign(op) + b.units
  {
    if DatesRejected(a, b) then Err(ValueError)
    else
      Ok(Series(
        data := seq(|a.data|, i requires 0 <= i < |a.data| => Apply(op, a.data[i], b.data[i])),
        dates := a.dates,
        t := a.t,
        title := a.title + TitleWord(op) + b.title,
        units := a.units + UnitSign(op) + b.units,
        source := Fold(a.source, b.source),
        updated := Fold(a.updated, b.updated),
        idCode := a.idCode + " and " + b.idCode,
        freq := a.freq,
        daterange := a.daterange,
        season := None,
        cycle := None,
        trend := None,
        arrayDates := a.arrayDates))
  }

  /** `a.plus(b)` and `plus(a, b)`. */
  function Plus(a: Series, b: Series): (r: Result<Series>)
    requires Valid(a) && Valid(b)
    ensures r.Err? <==> DatesRejected(a, b)
    ensures r.Err? ==> r.error == ValueError
    ensures r.Ok? ==> Valid(r.value) && |r.value.data| == |a.data| && Provenance(a, b, r.value)
    ensures r.Ok? ==> forall i :: 0 <= i < |a.data| ==> r.value.data[i] == Add(a.data[i], b.data[i])
    ensures r.Ok? ==> r.value.title == a.title + " plus " + b.title
    ensures r.Ok? ==> r.value.units == a.units + " + " + b.units
  {
    Combine(a, b, PlusOp)
  }

  /** `a.minus(b)` and `minus(a, b)`. */
  function Minus(a: Series, b: Series): (r: Result<Series>)
    requires Valid(a) && Valid(b)
    ensures r.Err? <==> DatesRejected(a, b)
    ensures r.Err? ==> r.error == ValueError
    ensures r.Ok? ==> Valid(r.value) && |r.value.data| == |a.data| && Provenance(a, b, r.value)
    ensures r.Ok? ==> forall i :: 0 <= i < |a.data| ==> r.value.data[i] == Sub(a.data[i], b.data[i])
    ensures r.Ok? ==> r.value.title == a.title + " minus " + b.title
    ensures r.Ok? ==> r.value.units == a.units + " - " + b.units
  {
    Combine(a, b, MinusOp)
  }

  /** `a.times(b)` and `times(a, b)`. */
  function Times(a: Series, b: Series): (r: Result<Series>)
    requires Valid(a) && Valid(b)
    ensures r.Err? <==> DatesRejected(a, b)
    ensures r.Err? ==> r.error == ValueError
    ensures r.Ok? ==> Valid(r.value) && |r.value.data| == |a.data| && Provenance(a, b, r.value)
    ensures r.Ok? ==> forall i :: 0 <= i < |a.data| ==> r.value.data[i] == Mul(a.data[i], b.data[i])
    ensures r.Ok? ==> r.value.title == a.title + " times " + b.title
    ensures r.Ok? ==> r.value.units == a.units + " x " + b.units
  {
    Combine(a, b, TimesOp)
  }

  /** `a.divide(b)` and `divide(a, b)`. */
  function Divide(a: Series, b: Series): (r: Result<Series>)
    requires Valid(a) && Valid(b)
    ensures r.Err? <==> DatesRejected(a, b)
    ensures r.Err? ==> r.error == ValueError
    ensures r.Ok? ==> Valid(r.value) && |r.value.data| == |a.data| && Provenance(a, b, r.value)
    ensures r.Ok? ==> forall i :: 0 <= i < |a.data| ==> r.value.data[i] == Div(a.data[i], b.data[i])
    ensures r.Ok? ==> r.value.title == a.title + " divided by " + b.title
    ensures r.Ok? ==> r.value.units == a.units + " / " + b.units
  {
    Combine(a, b, DivideOp)
  }

  /** A series minus its own copy succeeds unless its dates are an array of
      several dates; it is then zero wherever `a` is observed, and the
      provenance of the difference keeps the shared source unchanged. */
  lemma MinusCopyIsZero(a: Series)
    requires Valid(a)
    ensures Minus(a, Copy(a)).Ok? <==> !a.arrayDates || |a.dates| == 1
    ensures Minus(a, Copy(a)).Ok? ==> var d := Minus(a, Copy(a)).value;
      && d.dates == a.dates && d.source == a.source && d.updated == a.updated
      && forall i :: 0 <= i < |a.data| ==>
           d.data[i] == (if a.data[i].Val? then Val(0.0) else Missing)
  {
  }

  /** Adding back what was subtracted restores every observed value. */
  lemma PlusUndoesMinus(a: Series, b: Series)
    requires Valid(a) && Valid(b) && Minus(a, b).Ok?
    ensures Plus(Minus(a, b).value, b).Ok?
    ensures forall i :: 0 <= i < |a.data| && a.data[i].Val? && b.data[i].Val? ==>
      Plus(Minus(a, b).value, b).value.data[i] == a.data[i]
  {
    var d := Minus(a, b).value;
    forall i | 0 <= i < |a.data| && a.data[i].Val? && b.data[i].Val?
      ensures Plus(d, b).value.data[i] == a.data[i]
    {
      assert Plus(d, b).value.data[i] == Add(Sub(a.data[i], b.data[i]), b.data[i]);
    }
  }

  /** Multiplying back by a nonzero divisor restores every observed value. */
  lemma TimesUndoesDivide(a: Series, b: Series)
    requires Valid(a) && Valid(b) && Divide(a, b).Ok?
    ensures Times(Divide(a, b).value, b).Ok?
    ensures forall i :: 0 <= i < |a.data| && a.data[i].Val? && b.data[i].Val? && b.data[i].v != 0.0 ==>
      Times(Divide(a, b).value, b).value.data[i] == a.data[i]
  {
    var q := Divide(a, b).value;
    forall i | 0 <= i < |a.data| && a.data[i].Val? && b.data[i].Val? && b.data[i].v != 0.0
      ensures Times(q, b).value.data[i] == a.data[i]
    {
      assert Times(q, b).value.data[i] == Mul(Div(a.data[i], b.data[i]), b.data[i]);
      MulDivCancel(a.data[i].v, b.data[i].v);
    }
  }

  /** (x / y) * y == x for a nonzero y. */
  lemma MulDivCancel(x: real, y: real)
    requires y != 0.0
    ensures Mul(Div(Val(x), Val(y)), Val(y)) == Val(x)
  {
    assert (x / y) * y == x;
  }

  /** Swapping the operands of `plus` or `times` keeps them combinable and
      changes the metadata but not the observations. */
  lemma CommutativeData(a: Series, b: Series, op: Operator)
    requires Valid(a) && Valid(b) && Combine(a, b, op).Ok?
    requires op == PlusOp || op == TimesOp
    ensures Combine(b, a, op).Ok?
    ensures Combine(a, b, op).value.data == Combine(b, a, op).value.data
  {
  }
}
