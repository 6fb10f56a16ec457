/**
  Pixel values and the two value ranges the system converts between: the
  networks read and write [-1, 1]; images on disk and the repair composite
  use [0, 1]. Values are exact reals, not floating point.
 */
module Pixels {

  /** One image, flattened row-major over height x width x channels. */
  type Image = seq<real>

  function Abs(x: real): (r: real)
    ensures r >= 0.0 && (r == x || r == -x)
  {
    if x < 0.0 then -x else x
  }

  /** `x * 2 - 1` (cly_dcgan.py:290): from [0, 1] to [-1, 1]. */
  function ToSigned(x: real): (y: real)
    ensures 0.0 <= x <= 1.0 <==> -1.0 <= y <= 1.0
  {
    x * 2.0 - 1.0
  }

  /** `(y + 1) * 0.5` (repair.py:76, 82): from [-1, 1] to [0, 1], the inverse of ToSigned. */
  function ToUnit(y: real): (x: real)
    ensures -1.0 <= y <= 1.0 <==> 0.0 <= x <= 1.0
    ensures ToSigned(x) == y
  {
    (y + 1.0) * 0.5
  }

  /** ToUnit undoes ToSigned as well, so the two are mutually inverse bijections. */
  lemma UnitAfterSigned(x: real)
    ensures ToUnit(ToSigned(x)) == x
  {
  }

  /** Rescaling to [0, 1] halves every distance. */
  lemma UnitHalvesDistance(a: real, b: real)
    ensures Abs(ToUnit(a) - ToUnit(b)) == Abs(a - b) * 0.5
  {
  }

  /** `reduce_sum` over a flattened tensor. */
  function Sum(s: seq<real>): real
  {
    if s == [] then 0.0 else s[0] + Sum(s[1..])
  }

  lemma {:induction false} SumNonNegative(s: seq<real>)
    requires forall i :: 0 <= i < |s| ==> s[i] >= 0.0
    ensures Sum(s) >= 0.0
  {
    if s != [] {
      SumNonNegative(s[1..]);
    }
  }
}
