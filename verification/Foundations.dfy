/** Result and option types shared by every module. */
module Wrappers {
  datatype Option<+T> = None | Some(value: T)

  datatype Result<+T, +E> = Ok(value: T) | Err(error: E)
}

/** The signed 64-bit integers of the source and its checked arithmetic.
    Every quantity and every amount of money is an `int64`; intermediate
    products are arbitrary-precision, as they are in the source. */
module Int64 {
  import opened Wrappers

  const MAX: int := 0x7fff_ffff_ffff_ffff
  const MIN: int := -0x8000_0000_0000_0000
  const MAX_UINT64: int := 0xffff_ffff_ffff_ffff

  type int64 = x: int | MIN <= x <= MAX

  predicate Fits(x: int) {
    MIN <= x <= MAX
  }

  function Magnitude(x: int): (m: int)
    ensures m >= 0 && (m == x || m == -x)
  {
    if x < 0 then -x else x
  }

  function Sign(x: int): (s: int)
    ensures s * Magnitude(x) == x
  {
    if x > 0 then 1 else if x < 0 then -1 else 0
  }

  /** The guard subtracts on the side where it cannot wrap; it rejects exactly
      the sums that leave the 64-bit range. */
  function CheckedAdd(left: int64, right: int64): (sum: Option<int64>)
    ensures sum.Some? <==> Fits(left + right)
    ensures sum.Some? ==> sum.value == left + right
  {
    if (right > 0 && left > MAX - right) || (right < 0 && left < MIN - right) then None else Some(left + right)
  }

  /** Subtraction by adding the negation: besides the differences that leave the
      range it also refuses every subtraction of MIN, whose negation is not an
      int64. */
  function CheckedSubtract(left: int64, right: int64): (difference: Option<int64>)
    ensures difference.Some? <==> right != MIN && Fits(left - right)
    ensures difference.Some? ==> difference.value == left - right
  {
    if right == MIN then None else CheckedAdd(left, -right)
  }

  function CheckedMultiply(left: int64, right: int64): (product: Option<int64>)
    ensures product.Some? <==> Fits(left * right)
    ensures product.Some? ==> product.value == left * right
  {
    var p := left * right;
    if Fits(p) then Some(p) else None
  }

  /** Integer division truncated toward zero, as the source's operator rounds. */
  function TruncatedDivide(left: int, right: int): (quotient: int)
    requires right > 0
    ensures left >= 0 ==> quotient * right <= left < (quotient + 1) * right
    ensures left <= 0 ==> (quotient - 1) * right < left <= quotient * right
  {
    if left >= 0 then left / right else -((-left) / right)
  }
}

/** Order facts about products that the solver needs spelled out. */
module Products {
  lemma Grows(a: int, b: int, scale: int)
    requires a <= b && scale >= 0
    ensures a * scale <= b * scale
  {
    assert (b - a) * scale >= 0;
  }

  lemma Regroup(a: int, b: int, c: int)
    ensures a * b * c == a * c * b == a * (c * b)
  {
  }

  lemma Distributes(a: int, b: int, scale: int)
    ensures (a + b) * scale == a * scale + b * scale
  {
  }

  lemma Cancels(a: int, b: int, scale: int)
    requires scale > 0 && a * scale < b * scale
    ensures a < b
  {
    if a >= b {
      Grows(b, a, scale);
    }
  }
}
