/** JavaScript's `(part / whole) * 100` on whole cents, computed exactly:
    a fraction when `whole` is not zero, and the IEEE 754 special values
    division by zero yields otherwise. */
module Ratios {

  datatype Quantity = Fraction(num: int, den: int) | PlusInfinity | MinusInfinity | NotANumber {
    ghost predicate Valid() { Fraction? ==> den > 0 }
  }

  /** `(part / whole) * 100`. */
  function Percent(part: int, whole: int): (q: Quantity)
    ensures q.Valid()
    ensures whole != 0 <==> q.Fraction?
    ensures whole != 0 ==> q.num * whole == 100 * part * q.den
    ensures whole == 0 ==> (q == PlusInfinity <==> part > 0) && (q == MinusInfinity <==> part < 0) && (q == NotANumber <==> part == 0)
  {
    if whole > 0 then Fraction(100 * part, whole)
    else if whole < 0 then Fraction(-100 * part, -whole)
    else if part > 0 then PlusInfinity
    else if part < 0 then MinusInfinity
    else NotANumber
  }

  /** `q > n`; NaN compares false with everything. */
  predicate Exceeds(q: Quantity, n: int) {
    match q
    case Fraction(num, den) => num > n * den
    case PlusInfinity => true
    case MinusInfinity => false
    case NotANumber => false
  }

  /** `q < n`. */
  predicate Below(q: Quantity, n: int) {
    match q
    case Fraction(num, den) => num < n * den
    case PlusInfinity => false
    case MinusInfinity => true
    case NotANumber => false
  }

  /** `q === n`. */
  predicate Equals(q: Quantity, n: int) {
    q.Fraction? && q.num == n * q.den
  }

  /** `q === r` for two quantities that are not NaN. */
  predicate SameValue(q: Quantity, r: Quantity) {
    match (q, r)
    case (Fraction(a, b), Fraction(c, d)) => a * d == c * b
    case (PlusInfinity, PlusInfinity) => true
    case (MinusInfinity, MinusInfinity) => true
    case _ => false
  }

  /** `Math.min(q, n)`: NaN if `q` is NaN, otherwise the smaller of the two. */
  function MinWith(q: Quantity, n: int): (r: Quantity)
    requires q.Valid()
    ensures r.Valid()
    ensures q.NotANumber? <==> r.NotANumber?
    ensures !Exceeds(r, n)
    ensures !Exceeds(q, n) && !q.NotANumber? ==> SameValue(r, q)
    ensures Exceeds(q, n) ==> r == Fraction(n, 1)
  {
    if q.NotANumber? then NotANumber
    else if Below(q, n) then q
    else Fraction(n, 1)
  }

  /** With a positive whole, the percentage is above, at or below 100
      exactly as the part is above, at or below the whole. */
  lemma PercentAgainstHundred(part: int, whole: int)
    requires whole > 0
    ensures Exceeds(Percent(part, whole), 100) <==> part > whole
    ensures Equals(Percent(part, whole), 100) <==> part == whole
    ensures Below(Percent(part, whole), 100) <==> part < whole
  {
  }
}
