/**
 * Min-max rescaling of one column onto the target range [Low, High], as a
 * scaler fitted on the whole column and applied to the same column
 * (`fit_transform`). A column whose minimum equals its maximum has zero range;
 * the scaler then divides by 1 instead, so every value maps to Low.
 */
module MinMax {

  const Low: real := 1.0
  const High: real := 10.0

  /** The smallest value of a non-empty column. */
  function Min(xs: seq<real>): (m: real)
    requires |xs| > 0
    ensures forall i :: 0 <= i < |xs| ==> m <= xs[i]
    ensures exists i :: 0 <= i < |xs| && xs[i] == m
  {
    if |xs| == 1 then xs[0]
    else
      var rest := Min(xs[1..]);
      assert forall i :: 1 <= i < |xs| ==> xs[i] == xs[1..][i - 1];
      if xs[0] <= rest then xs[0] else rest
  }

  /** The largest value of a non-empty column. */
  function Max(xs: seq<real>): (m: real)
    requires |xs| > 0
    ensures forall i :: 0 <= i < |xs| ==> xs[i] <= m
    ensures exists i :: 0 <= i < |xs| && xs[i] == m
  {
    if |xs| == 1 then xs[0]
    else
      var rest := Max(xs[1..]);
      assert forall i :: 1 <= i < |xs| ==> xs[i] == xs[1..][i - 1];
      if xs[0] >= rest then xs[0] else rest
  }

  /** The value `x` rescaled by a scaler fitted to the data range [lo, hi]. */
  function Scale(x: real, lo: real, hi: real): real {
    var range := if hi == lo then 1.0 else hi - lo;
    Low + (x - lo) / range * (High - Low)
  }

  /** The column rescaled with its own minimum and maximum. */
  function MinMaxScale(xs: seq<real>): (ys: seq<real>)
    requires |xs| > 0
    ensures |ys| == |xs|
  {
    var lo, hi := Min(xs), Max(xs);
    seq(|xs|, i requires 0 <= i < |xs| => Scale(xs[i], lo, hi))
  }

  /** A value inside the fitted range lands inside the target range. */
  lemma ScaleBounds(x: real, lo: real, hi: real)
    requires lo <= x <= hi
    ensures Low <= Scale(x, lo, hi) <= High
  {
    if hi != lo {
      var range := hi - lo;
      var f := (x - lo) / range;
      assert f * range == x - lo;
      assert 0.0 <= f <= 1.0;
    }
  }

  /** Inside the fitted range, rescaling preserves and reflects the order. */
  lemma ScaleMonotone(x: real, y: real, lo: real, hi: real)
    requires lo <= x <= hi && lo <= y <= hi
    ensures x <= y <==> Scale(x, lo, hi) <= Scale(y, lo, hi)
  {
    if hi != lo {
      var range := hi - lo;
      var fx, fy := (x - lo) / range, (y - lo) / range;
      assert fx * range == x - lo && fy * range == y - lo;
      assert x <= y <==> fx <= fy;
    }
  }

  /** The top of a non-empty fitted range maps to High. */
  lemma ScaleTop(lo: real, hi: real)
    requires lo < hi
    ensures Scale(hi, lo, hi) == High
  {
    assert (hi - lo) / (hi - lo) == 1.0;
  }

  /** Every rescaled value lies in [Low, High]. */
  lemma MinMaxScaleInRange(xs: seq<real>)
    requires |xs| > 0
    ensures forall i :: 0 <= i < |xs| ==> Low <= MinMaxScale(xs)[i] <= High
  {
    forall i | 0 <= i < |xs| ensures Low <= MinMaxScale(xs)[i] <= High {
      ScaleBounds(xs[i], Min(xs), Max(xs));
    }
  }

  /** A row holding the column minimum maps to exactly Low. */
  lemma MinMaxScaleMinToLow(xs: seq<real>)
    requires |xs| > 0
    ensures forall i :: 0 <= i < |xs| && xs[i] == Min(xs) ==> MinMaxScale(xs)[i] == Low
  {
  }

  /** When the column is not constant, a row holding its maximum maps to exactly High. */
  lemma MinMaxScaleMaxToHigh(xs: seq<real>)
    requires |xs| > 0 && Min(xs) < Max(xs)
    ensures forall i :: 0 <= i < |xs| && xs[i] == Max(xs) ==> MinMaxScale(xs)[i] == High
  {
    var lo, hi := Min(xs), Max(xs);
    ScaleTop(lo, hi);
    forall i | 0 <= i < |xs| && xs[i] == hi ensures MinMaxScale(xs)[i] == High {
      assert MinMaxScale(xs)[i] == Scale(hi, lo, hi);
    }
  }

  /** Rescaling keeps the order of the raw values, in both directions. */
  lemma MinMaxScaleMonotone(xs: seq<real>)
    requires |xs| > 0
    ensures forall i, j :: 0 <= i < |xs| && 0 <= j < |xs| ==>
      (xs[i] <= xs[j] <==> MinMaxScale(xs)[i] <= MinMaxScale(xs)[j])
  {
    forall i, j | 0 <= i < |xs| && 0 <= j < |xs|
      ensures xs[i] <= xs[j] <==> MinMaxScale(xs)[i] <= MinMaxScale(xs)[j]
    {
      ScaleMonotone(xs[i], xs[j], Min(xs), Max(xs));
    }
  }
}
