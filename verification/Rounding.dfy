// Percentages rounded to the nearest whole number.
module Rounding {

  // The number of hundredths closest to part of whole, halves counted upwards.
  predicate NearestPercent(percent: int, part: int, whole: int) {
    2 * whole * percent - whole <= 200 * part < 2 * whole * percent + whole
  }

  lemma QuotientIsNearest(part: int, whole: int)
    requires whole > 0
    ensures NearestPercent((200 * part + whole) / (2 * whole), part, whole)
  {
    var n, d := 200 * part + whole, 2 * whole;
    assert d * (n / d) <= n < d * (n / d) + d;
  }
}
