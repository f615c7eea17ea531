/** Observation dates. The source keeps 'YYYY-MM-DD' strings and compares them
    through their parsed calendar values; the model keeps the parsed value and
    formats the label back when it builds a `daterange` string. */
module Calendar {

  datatype Date = Date(year: nat, month: nat, day: nat)

  /** Strictly earlier in calendar order. */
  predicate Before(a: Date, b: Date) {
    || a.year < b.year
    || (a.year == b.year && a.month < b.month)
    || (a.year == b.year && a.month == b.month && a.day < b.day)
  }

  /** Dates strictly increasing, with no duplicates. */
  predicate Increasing(ds: seq<Date>) {
    forall i, j :: 0 <= i < j < |ds| ==> Before(ds[i], ds[j])
  }

  lemma BeforeTransitive(a: Date, b: Date, c: Date)
    requires Before(a, b) && Before(b, c)
    ensures Before(a, c)
  {
  }

  /** x <= y and y <= z give x <= z. */
  lemma NotBeforeTransitive(x: Date, y: Date, z: Date)
    requires !Before(y, x) && !Before(z, y)
    ensures !Before(z, x)
  {
  }

  /** x <= y and y < z give x < z. */
  lemma NotBeforeThenBefore(x: Date, y: Date, z: Date)
    requires !Before(y, x) && Before(y, z)
    ensures Before(x, z)
  {
  }

  /** `min(...)` over dates. */
  function Earliest(ds: seq<Date>): (m: Date)
    requires |ds| > 0
    ensures m in ds
    ensures forall i :: 0 <= i < |ds| ==> !Before(ds[i], m)
  {
    if |ds| == 1 then ds[0]
    else
      var m := Earliest(ds[1..]);
      assert forall i :: 1 <= i < |ds| ==> ds[i] == ds[1..][i - 1];
      if Before(ds[0], m) then ds[0] else m
  }

  /** `max(...)` over dates. */
  function Latest(ds: seq<Date>): (m: Date)
    requires |ds| > 0
    ensures m in ds
    ensures forall i :: 0 <= i < |ds| ==> !Before(m, ds[i])
  {
    if |ds| == 1 then ds[0]
    else
      var m := Latest(ds[1..]);
      assert forall i :: 1 <= i < |ds| ==> ds[i] == ds[1..][i - 1];
      if Before(m, ds[0]) then ds[0] else m
  }

  /** On increasing dates the earliest is the first and the latest the last. */
  lemma {:induction false} EndsOfIncreasing(ds: seq<Date>)
    requires |ds| > 0 && Increasing(ds)
    ensures Earliest(ds) == ds[0] && Latest(ds) == ds[|ds| - 1]
  {
    if |ds| > 1 {
      var tail := ds[1..];
      assert Increasing(tail) by {
        forall i, j | 0 <= i < j < |tail| ensures Before(tail[i], tail[j]) {
          assert tail[i] == ds[i + 1] && tail[j] == ds[j + 1];
        }
      }
      EndsOfIncreasing(tail);
      assert Before(ds[0], ds[1]);
      assert Before(ds[0], ds[|ds| - 1]);
    }
  }

  function DigitChar(n: nat): char
    requires n < 10
  {
    "0123456789"[n]
  }

  /** Decimal digits of `n`, most significant first. */
  function Digits(n: nat): string
  {
    if n < 10 then [DigitChar(n)] else Digits(n / 10) + [DigitChar(n % 10)]
  }

  function PadLeft(s: string, width: nat): string
    decreases width - |s|
  {
    if |s| >= width then s else PadLeft("0" + s, width)
  }

  /** The 'YYYY-MM-DD' label of a date. */
  function Iso(d: Date): string {
    PadLeft(Digits(d.year), 4) + "-" + PadLeft(Digits(d.month), 2) + "-" + PadLeft(Digits(d.day), 2)
  }
}
