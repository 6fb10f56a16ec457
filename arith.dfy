/** Facts about integer multiplication and division that the index arithmetic needs. */
module IntArith {

  lemma MulMonotone(a: int, b: int, w: int)
    requires a <= b && w >= 0
    ensures a * w <= b * w
  {
    assert b * w - a * w == (b - a) * w;
  }

  /** Division by a positive divisor has exactly one quotient and remainder. */
  lemma {:induction false} DivModUnique(w: int, q: int, m: int, p: int)
    requires w > 0 && 0 <= m < w && p == q * w + m
    ensures p / w == q && p % w == m
  {
    var q', m' := p / w, p % w;
    assert (q - q') * w == m' - m;
    if q > q' {
      MulMonotone(1, q - q', w);
    } else if q < q' {
      MulMonotone(1, q' - q, w);
    }
  }
}
