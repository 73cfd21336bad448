/** The real-valued MinMax normalisation of control/tools.py (Python true division). */
module Tools {

  /** Maps `value` from [currentMin, currentMax] onto [intendedMin, intendedMax] linearly.
      The source divides by `currentMax - currentMin`, so equal bounds are excluded. */
  function Normalise(value: real, currentMin: real, currentMax: real,
                     intendedMin: real, intendedMax: real): (r: real)
    requires currentMax != currentMin
    ensures value == currentMin ==> r == intendedMin
    ensures value == currentMax ==> r == intendedMax
    // the point (value, r) lies on the line through the two endpoint pairs
    ensures (r - intendedMin) * (currentMax - currentMin) == (value - currentMin) * (intendedMax - intendedMin)
  {
    intendedMin + (value - currentMin) * (intendedMax - intendedMin) / (currentMax - currentMin)
  }

  /** On an increasing source range and a non-decreasing target range, the map is monotone. */
  lemma NormaliseMonotone(v1: real, v2: real, currentMin: real, currentMax: real,
                          intendedMin: real, intendedMax: real)
    requires currentMin < currentMax && intendedMin <= intendedMax
    requires v1 <= v2
    ensures Normalise(v1, currentMin, currentMax, intendedMin, intendedMax)
         <= Normalise(v2, currentMin, currentMax, intendedMin, intendedMax)
  {
    var d := currentMax - currentMin;
    var w := intendedMax - intendedMin;
    var n1 := Normalise(v1, currentMin, currentMax, intendedMin, intendedMax);
    var n2 := Normalise(v2, currentMin, currentMax, intendedMin, intendedMax);
    // both points lie on the line, so their difference scaled by d is (v2 - v1) * w
    assert (n1 - intendedMin) * d == (v1 - currentMin) * w;
    assert (n2 - intendedMin) * d == (v2 - currentMin) * w;
    assert (n2 - n1) * d == (v2 - v1) * w;
    ProductNonNegative(v2 - v1, w);
    if n2 < n1 {
      ProductPositive(n1 - n2, d);
    }
  }

  lemma ProductNonNegative(x: real, y: real)
    requires 0.0 <= x && 0.0 <= y
    ensures 0.0 <= x * y
  {
  }

  lemma ProductPositive(x: real, y: real)
    requires 0.0 < x && 0.0 < y
    ensures 0.0 < x * y
  {
  }

  /** A value inside the source range lands inside the target range. */
  lemma NormaliseInRange(value: real, currentMin: real, currentMax: real,
                         intendedMin: real, intendedMax: real)
    requires currentMin < currentMax && intendedMin <= intendedMax
    requires currentMin <= value <= currentMax
    ensures intendedMin <= Normalise(value, currentMin, currentMax, intendedMin, intendedMax) <= intendedMax
  {
    NormaliseMonotone(currentMin, value, currentMin, currentMax, intendedMin, intendedMax);
    NormaliseMonotone(value, currentMax, currentMin, currentMax, intendedMin, intendedMax);
  }
}
