/** Observations as the source's NumPy arrays hold them: a finite number, or
    the missing marker (NaN) that every arithmetic operation propagates.
    Division by zero yields an infinity or NaN in NumPy; the model folds every
    non-finite result into Missing. */
module Observations {

  datatype Obs = Val(v: real) | Missing

  function Add(x: Obs, y: Obs): Obs {
    if x.Val? && y.Val? then Val(x.v + y.v) else Missing
  }

  function Sub(x: Obs, y: Obs): Obs {
    if x.Val? && y.Val? then Val(x.v - y.v) else Missing
  }

  function Mul(x: Obs, y: Obs): Obs {
    if x.Val? && y.Val? then Val(x.v * y.v) else Missing
  }

  function Div(x: Obs, y: Obs): Obs {
    if x.Val? && y.Val? && y.v != 0.0 then Val(x.v / y.v) else Missing
  }

  /** No observation is missing. */
  predicate Present(xs: seq<Obs>) {
    forall i :: 0 <= i < |xs| ==> xs[i].Val?
  }

  /** Left-to-right sum, as the source's chains of `+` compute it. */
  function Sum(xs: seq<Obs>): Obs {
    if |xs| == 0 then Val(0.0) else Add(Sum(xs[..|xs| - 1]), xs[|xs| - 1])
  }

  /** `np.mean`: NaN for an empty slice. */
  function Mean(xs: seq<Obs>): Obs {
    if |xs| == 0 then Missing else Div(Sum(xs), Val(|xs| as real))
  }

  /** Every element minus the constant `c`. */
  function Shifted(xs: seq<Obs>, c: Obs): (r: seq<Obs>)
    ensures |r| == |xs|
    ensures forall i :: 0 <= i < |xs| ==> r[i] == Sub(xs[i], c)
  {
    seq(|xs|, i requires 0 <= i < |xs| => Sub(xs[i], c))
  }

  /** A sum is a number exactly when no term is missing. */
  lemma {:induction false} SumPresent(xs: seq<Obs>)
    ensures Sum(xs).Val? <==> Present(xs)
  {
    if |xs| > 0 {
      var init := xs[..|xs| - 1];
      SumPresent(init);
      assert forall i :: 0 <= i < |init| ==> init[i] == xs[i];
    }
  }

  /** Subtracting `c` from each of n terms lowers the sum by n * c. */
  lemma {:induction false} SumShifted(xs: seq<Obs>, c: real)
    requires Present(xs)
    ensures Sum(xs).Val?
    ensures Sum(Shifted(xs, Val(c))) == Val(Sum(xs).v - |xs| as real * c)
  {
    SumPresent(xs);
    if |xs| > 0 {
      var init := xs[..|xs| - 1];
      assert Present(init) by {
        assert forall i :: 0 <= i < |init| ==> init[i] == xs[i];
      }
      SumShifted(init, c);
      assert Shifted(xs, Val(c))[..|xs| - 1] == Shifted(init, Val(c));
    }
  }

  /** The mean of terms shifted by their own mean sums to zero. */
  lemma DemeanedSumsToZero(xs: seq<Obs>)
    requires Present(xs) && |xs| > 0
    ensures Mean(xs).Val?
    ensures Sum(Shifted(xs, Mean(xs))) == Val(0.0)
  {
    SumPresent(xs);
    var total, n := Sum(xs).v, |xs| as real;
    assert Mean(xs) == Val(total / n);
    SumShifted(xs, total / n);
    assert n * (total / n) == total;
  }

  /** The mean of a single observation is that observation. */
  lemma MeanOfOne(x: Obs)
    ensures Mean([x]) == x
  {
    assert [x][..0] == [];
    assert Sum([x]) == Add(Val(0.0), x);
  }

  /** The mean of two numbers is their midpoint. */
  lemma MeanOfPair(x: real, y: real)
    ensures Mean([Val(x), Val(y)]) == Val((x + y) / 2.0)
  {
    var xs := [Val(x), Val(y)];
    assert xs[..1] == [Val(x)];
    assert [Val(x)][..0] == [];
    assert Sum([Val(x)]) == Val(0.0 + x);
    assert Sum(xs) == Val(x + y);
  }

  /** Every observation equals the number `c`. */
  predicate Constant(xs: seq<Obs>, c: real) {
    forall i :: 0 <= i < |xs| ==> xs[i] == Val(c)
  }

  /** n copies of `c` sum to n * c. */
  lemma {:induction false} SumOfConstant(xs: seq<Obs>, c: real)
    requires Constant(xs, c)
    ensures Sum(xs) == Val(|xs| as real * c)
  {
    if |xs| > 0 {
      var init := xs[..|xs| - 1];
      assert Constant(init, c) by {
        assert forall i :: 0 <= i < |init| ==> init[i] == xs[i];
      }
      SumOfConstant(init, c);
    }
  }

  /** The mean of copies of `c` is `c`. */
  lemma MeanOfConstant(xs: seq<Obs>, c: real)
    requires Constant(xs, c) && |xs| > 0
    ensures Mean(xs) == Val(c)
  {
    SumOfConstant(xs, c);
    var n := |xs| as real;
    assert (n * c) / n == c;
  }
}
