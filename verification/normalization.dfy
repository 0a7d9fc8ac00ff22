/** `normalize_scores`: min-max scaling of a batch of values onto the unit
    interval, with every value mapped to one half when they are all equal. */
module Normalization {
  import opened Extrema

  /** `min(values)`. */
  function MinOf(values: seq<real>): real
    requires |values| > 0
  {
    values[ArgMin(values)]
  }

  /** `max(values)`. */
  function MaxOf(values: seq<real>): real
    requires |values| > 0
  {
    values[ArgMax(values)]
  }

  /** All values equal: the case where the range is zero. */
  predicate IsConstant(values: seq<real>) {
    forall i, j :: 0 <= i < |values| && 0 <= j < |values| ==> values[i] == values[j]
  }

  /** The range is zero exactly when the values are all equal. */
  lemma RangeZeroIff(values: seq<real>)
    requires |values| > 0
    ensures MaxOf(values) - MinOf(values) == 0.0 <==> IsConstant(values)
  {
    var a, b := ArgMin(values), ArgMax(values);
    if IsConstant(values) {
      assert values[a] == values[b];
    }
  }

  /** Where `v` sits between `lo` and `hi`, one half when the range is
      zero: one element of the result of `normalize_scores`. */
  function Position(v: real, lo: real, hi: real): real {
    if hi - lo == 0.0 then 0.5 else (v - lo) / (hi - lo)
  }

  /** `normalize_scores(values)`: empty for no values, one half everywhere
      for equal values, and otherwise each value's position between the
      least and the greatest, so the least maps to 0, the greatest to 1 and
      the order of the values is kept. */
  function Normalize(values: seq<real>): (r: seq<real>)
    ensures |r| == |values|
    ensures IsConstant(values) ==> forall i :: 0 <= i < |r| ==> r[i] == 0.5
    ensures forall i :: 0 <= i < |r| ==> 0.0 <= r[i] <= 1.0
    ensures forall i, j :: 0 <= i < |r| && 0 <= j < |r| && values[i] <= values[j] ==> r[i] <= r[j]
  {
    if |values| == 0 then []
    else
      var lo, hi := MinOf(values), MaxOf(values);
      var r := seq(|values|, i requires 0 <= i < |values| => Position(values[i], lo, hi));
      RangeZeroIff(values);
      if lo < hi then
        forall i | 0 <= i < |values|
          ensures 0.0 <= r[i] <= 1.0
        {
          PositionBounds(values[i], lo, hi);
        }
        forall i, j | 0 <= i < |values| && 0 <= j < |values| && values[i] <= values[j]
          ensures r[i] <= r[j]
        {
          PositionMonotone(values[i], values[j], lo, hi);
        }
        r
      else
        r
  }

  /** Unless the values are all equal, exactly the least values map to 0 and
      exactly the greatest map to 1. */
  lemma NormalizeExtremes(values: seq<real>)
    requires !IsConstant(values)
    ensures forall i :: 0 <= i < |values| ==> (Normalize(values)[i] == 0.0 <==> values[i] == MinOf(values))
    ensures forall i :: 0 <= i < |values| ==> (Normalize(values)[i] == 1.0 <==> values[i] == MaxOf(values))
  {
    var lo, hi := MinOf(values), MaxOf(values);
    RangeZeroIff(values);
    forall i | 0 <= i < |values|
      ensures Normalize(values)[i] == 0.0 <==> values[i] == lo
      ensures Normalize(values)[i] == 1.0 <==> values[i] == hi
    {
      NormalizeAt(values, i);
      PositionBounds(values[i], lo, hi);
    }
  }

  lemma PositionBounds(v: real, lo: real, hi: real)
    requires lo <= v <= hi && lo < hi
    ensures 0.0 <= Position(v, lo, hi) <= 1.0
    ensures Position(v, lo, hi) == 0.0 <==> v == lo
    ensures Position(v, lo, hi) == 1.0 <==> v == hi
  {
    var q := Position(v, lo, hi);
    assert q * (hi - lo) == v - lo;
  }

  lemma PositionMonotone(u: real, v: real, lo: real, hi: real)
    requires u <= v && lo < hi
    ensures Position(u, lo, hi) <= Position(v, lo, hi)
  {
    var d := hi - lo;
    assert Position(v, lo, hi) - Position(u, lo, hi) == (v - u) / d;
  }

  lemma PositionMirror(v: real, lo: real, hi: real)
    requires lo < hi
    ensures Position(-v, -hi, -lo) == 1.0 - Position(v, lo, hi)
  {
    var d := hi - lo;
    var p := (hi - v) / d;
    var q := (v - lo) / d;
    assert p * d == hi - v;
    assert q * d == v - lo;
    assert (p + q) * d == p * d + q * d;
    assert (p + q - 1.0) * d == 0.0;
    ZeroProduct(p + q - 1.0, d);
    assert -lo - -hi == d && -v - -hi == hi - v;
    assert Position(-v, -hi, -lo) == p;
  }

  lemma ZeroProduct(x: real, d: real)
    requires d != 0.0 && x * d == 0.0
    ensures x == 0.0
  {
  }

  function Negate(values: seq<real>): (r: seq<real>)
    ensures |r| == |values|
    ensures forall i :: 0 <= i < |values| ==> r[i] == -values[i]
  {
    seq(|values|, i requires 0 <= i < |values| => -values[i])
  }

  /** Negating the values mirrors their normalisation: the least value
      becomes the greatest, and a constant list stays at one half. This is
      why the scorer negates prices. */
  lemma NormalizeNegate(values: seq<real>)
    ensures |Normalize(Negate(values))| == |values|
    ensures forall i :: 0 <= i < |values| ==> Normalize(Negate(values))[i] == 1.0 - Normalize(values)[i]
  {
    forall i | 0 <= i < |values|
      ensures Normalize(Negate(values))[i] == 1.0 - Normalize(values)[i]
    {
      NormalizeNegateAt(values, i);
    }
  }

  lemma NormalizeNegateAt(values: seq<real>, i: nat)
    requires i < |values|
    ensures Normalize(Negate(values))[i] == 1.0 - Normalize(values)[i]
  {
    if IsConstant(values) {
      NegateConstant(values);
      return;
    }
    var n := Negate(values);
    var lo, hi := MinOf(values), MaxOf(values);
    NegateBounds(values);
    RangeZeroIff(values);
    PositionCongruent(n[i], MinOf(n), MaxOf(n), -values[i], -hi, -lo);
    PositionMirror(values[i], lo, hi);
    NormalizeAt(n, i);
    NormalizeAt(values, i);
  }

  lemma NegateConstant(values: seq<real>)
    requires IsConstant(values)
    ensures IsConstant(Negate(values))
  {
    var n := Negate(values);
    forall a, b | 0 <= a < |n| && 0 <= b < |n| ensures n[a] == n[b] {
      assert values[a] == values[b];
    }
  }

  /** The least and greatest of the negated values. */
  lemma NegateBounds(values: seq<real>)
    requires |values| > 0
    ensures MinOf(Negate(values)) == -MaxOf(values)
    ensures MaxOf(Negate(values)) == -MinOf(values)
  {
    var n := Negate(values);
    ArgMinUnique(n, ArgMax(values));
    ArgMaxUnique(n, ArgMin(values));
  }

  /** One element of a normalisation. */
  lemma NormalizeAt(values: seq<real>, i: nat)
    requires i < |values|
    ensures Normalize(values)[i] == Position(values[i], MinOf(values), MaxOf(values))
  {
  }

  /** Equal arguments give equal positions (stated as a lemma so that the
      prover need not look inside the division). */
  lemma PositionCongruent(v: real, lo: real, hi: real, v': real, lo': real, hi': real)
    requires v == v' && lo == lo' && hi == hi'
    ensures Position(v, lo, hi) == Position(v', lo', hi')
  {
  }

  /** Normalising twice is normalising once. */
  lemma NormalizeIdempotent(values: seq<real>)
    ensures Normalize(Normalize(values)) == Normalize(values)
  {
    var r := Normalize(values);
    if |values| > 0 {
      if IsConstant(values) {
        assert IsConstant(r);
        RangeZeroIff(r);
      } else {
        var a, b := ArgMin(values), ArgMax(values);
        NormalizeExtremes(values);
        assert r[a] == 0.0 && r[b] == 1.0;
        ArgMinUnique(r, a);
        ArgMaxUnique(r, b);
        forall i | 0 <= i < |r| ensures Position(r[i], 0.0, 1.0) == r[i] {
        }
      }
    }
  }
}
