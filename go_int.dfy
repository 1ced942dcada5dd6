/**
  Go's 64-bit signed integers and its integer division.

  Go's `/` truncates the quotient toward zero and `%` gives a remainder with
  the sign of the dividend, whereas Dafny's `/` and `%` on `int` are
  Euclidean. `Quot` and `Rem` are Go's operators for a positive divisor, which
  is the only kind the modelled code divides by.
 */
module GoInt {

  /** Go's `int64`. */
  newtype int64 = x: int | -0x8000_0000_0000_0000 <= x < 0x8000_0000_0000_0000

  /** Go's `a / b` for `b > 0`: the exact quotient truncated toward zero. */
  function Quot(a: int, b: int): (q: int)
    requires b > 0
    ensures 0 <= a ==> 0 <= a - b * q < b
    ensures a < 0 ==> -b < a - b * q <= 0
    ensures 0 <= a ==> 0 <= q <= a
    ensures a < 0 ==> a <= q <= 0
  {
    if a >= 0 then
      DivBounds(a, b);
      a / b
    else
      DivBounds(-a, b);
      -((-a) / b)
  }

  /** Euclidean division of a non-negative number, stated with the facts `Quot` needs. */
  lemma DivBounds(a: int, b: int)
    requires 0 <= a && b > 0
    ensures a == b * (a / b) + a % b && 0 <= a % b < b
    ensures 0 <= a / b <= a
  {
    var q := a / b;
    assert 0 <= q;
    MulGrows(b, q);
  }

  /** Go's `a % b` for `b > 0`: what is left of `a` after `Quot(a, b)` whole `b`s, signed like `a`. */
  function Rem(a: int, b: int): (r: int)
    requires b > 0
    ensures a == b * Quot(a, b) + r
    ensures -b < r < b
    ensures 0 <= a ==> 0 <= r
    ensures a <= 0 ==> r <= 0
  {
    a - b * Quot(a, b)
  }

  /**
    Truncating division is the only division whose remainder is smaller than
    the divisor and signed like the dividend: any `q` with that property is
    `Quot(a, b)`.
   */
  lemma QuotUnique(a: int, b: int, q: int)
    requires b > 0
    requires 0 <= a ==> 0 <= a - b * q < b
    requires a < 0 ==> -b < a - b * q <= 0
    ensures q == Quot(a, b)
  {
    var q' := Quot(a, b);
    if q < q' {
      MulAtLeast(b, q' - q);
    } else if q > q' {
      MulAtLeast(b, q - q');
    }
  }

  lemma MulGrows(b: int, q: int)
    requires b > 0 && q >= 0
    ensures b * q >= q
  {
  }

  lemma MulAtLeast(b: int, d: int)
    requires b > 0 && d >= 1
    ensures b * d >= b
  {
  }

  /** A multiple of `b` divides exactly, whatever its sign. */
  lemma QuotOfMultiple(k: int, b: int)
    requires b > 0
    ensures Quot(k * b, b) == k && Rem(k * b, b) == 0
  {
  }
}
