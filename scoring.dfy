/**
 * The points a waste report earns (backend/index.js:172):
 * `max(0, round(0.5*organic + 0.2*plastic + 0.1*electronic + 0.1*other))`.
 * Quantities are modelled as integers. The weighted sum is then a whole number of
 * tenths, and the formula is exact over the reals as integer arithmetic.
 */
module Scoring {
  import opened Common

  /** The daily cap per category, in kilograms. */
  const MAX_DAILY: int := 50

  /** The four category quantities of one report. The source never rejects a negative quantity. */
  datatype Quantities = Quantities(organic: int, plastic: int, electronic: int, other: int)

  const NO_WASTE: Quantities := Quantities(0, 0, 0, 0)

  /** The submission's cap check: true when some category exceeds `MAX_DAILY`. */
  predicate ExceedsCap(q: Quantities)
  {
    q.organic > MAX_DAILY || q.plastic > MAX_DAILY || q.electronic > MAX_DAILY || q.other > MAX_DAILY
  }

  /** The weighted sum the source rounds, as an exact real. */
  function WeightedSum(q: Quantities): real
  {
    0.5 * q.organic as real + 0.2 * q.plastic as real + 0.1 * q.electronic as real + 0.1 * q.other as real
  }

  /** Points for a report: integer form of the formula. */
  function Points(q: Quantities): (p: int)
    ensures p >= 0
  {
    Max(0, (5 * q.organic + 2 * q.plastic + q.electronic + q.other + 5) / 10)
  }

  /** The integer form agrees with rounding the real weighted sum and clamping at zero. */
  lemma PointsIsRoundedWeightedSum(q: Quantities)
    ensures Points(q) == Max(0, RoundHalfUp(WeightedSum(q)))
  {
  }

  /** More of any category never lowers the points. */
  lemma PointsMonotone(q: Quantities, q': Quantities)
    requires q.organic <= q'.organic && q.plastic <= q'.plastic
    requires q.electronic <= q'.electronic && q.other <= q'.other
    ensures Points(q) <= Points(q')
  {
  }

  /** A report within the cap earns at most 45 points (organic, plastic, electronic, other all at 50). */
  lemma PointsWithinCap(q: Quantities)
    requires !ExceedsCap(q)
    ensures Points(q) <= 45
  {
  }

  /** 10 kg organic and 5 kg plastic: round(5 + 1) = 6 points. */
  lemma PointsExample()
    ensures Points(Quantities(10, 5, 0, 0)) == 6
  {
  }
}
