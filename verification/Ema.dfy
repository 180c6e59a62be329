/** The fixed-point exponential moving average of candle closes. */
module Ema {
  import opened Wrappers
  import opened Int64
  import Products

  const SCALE: int := 1_000_000

  datatype EmaError = EmaInvalid

  /** r is the integer nearest to n/d; of two equally near it is the one further
      from zero. */
  predicate Nearest(r: int, n: int, d: int) {
    Near(r * d, n, d)
  }

  predicate Near(multiple: int, n: int, d: int) {
    && 2 * Magnitude(multiple - n) <= d
    && (2 * Magnitude(multiple - n) == d ==> Magnitude(multiple) > Magnitude(n))
  }

  lemma NotBothNear(p: int, q: int, n: int, d: int)
    requires d > 0 && q >= p + d && (p >= 0 || q <= 0 || q > p + d)
    ensures !(Near(p, n, d) && Near(q, n, d))
  {
  }

  lemma NearestIsUnique(r: int, s: int, n: int, d: int)
    requires d > 0 && Nearest(r, n, d) && Nearest(s, n, d)
    ensures r == s
  {
    hide Near;
    if r < s { SmallerIsNotNear(r, s, n, d); }
    if s < r { SmallerIsNotNear(s, r, n, d); }
  }

  lemma SmallerIsNotNear(r: int, s: int, n: int, d: int)
    requires d > 0 && r < s
    ensures !(Near(r * d, n, d) && Near(s * d, n, d))
  {
    hide Near;
    Products.Grows(r + 1, s, d);
    Products.Distributes(r, 1, d);
    if r >= 0 {
      Products.Grows(0, r, d);
    } else if s <= 0 {
      Products.Grows(s, 0, d);
    } else {
      Products.Grows(r + 2, s, d);
      Products.Distributes(r, 2, d);
    }
    NotBothNear(r * d, s * d, n, d);
  }

  lemma NearestIsOdd(r: int, n: int, d: int)
    ensures Nearest(r, n, d) <==> Nearest(-r, -n, d)
  {
    assert (-r) * d == -(r * d);
  }

  /** The nearest integer to n/d, by definition rather than by steps. */
  function Round(n: int, d: int): (r: int)
    requires d > 0
    ensures Nearest(r, n, d)
  {
    if n >= 0 then RoundUp(n, d) else
    var r := RoundUp(-n, d);
    NearestIsOdd(r, -n, d);
    -r
  }

  function RoundUp(n: nat, d: int): (r: int)
    requires d > 0
    ensures Nearest(r, n, d)
  {
    var r := (2 * n + d) / (2 * d);
    assert 2 * (r * d) <= 2 * n + d < 2 * (r * d) + 2 * d by {
      Products.Regroup(r, 2, d);
    }
    r
  }

  lemma RoundIsOdd(n: int, d: int)
    requires d > 0
    ensures Round(-n, d) == -Round(n, d)
  {
    NearestIsOdd(Round(n, d), n, d);
    NearestIsUnique(Round(-n, d), -Round(n, d), -n, d);
  }

  /** value * numerator / denominator, rounded. It succeeds exactly when the
      factors are positive and the product is an int64, and then its result, an
      int64 too, is the nearest integer. */
  method RoundedFraction(value: int64, numerator: int64, denominator: int64) returns (result: Result<int64, EmaError>)
    ensures result.Ok? <==> numerator > 0 && denominator > 0 && Fits(value * numerator)
    ensures result.Ok? ==> result.value == Round(value * numerator, denominator)
  {
    if denominator <= 0 || numerator <= 0 {
      return Err(EmaInvalid);
    }
    ProductGuard(value, numerator);
    if (value > 0 && value > TruncatedDivide(MAX, numerator)) ||
      (value < 0 && value < TruncatedDivide(MIN, numerator)) {
      return Err(EmaInvalid);
    }
    var product: int64 := value * numerator;
    var quotient := TruncatedDivide(product, denominator);
    var remainder := Magnitude(product - quotient * denominator);
    ghost var truncated := quotient;
    if remainder >= denominator - remainder {
      quotient := if product >= 0 then quotient + 1 else quotient - 1;
    }
    assert Nearest(quotient, product, denominator) by {
      Products.Distributes(truncated, 1, denominator);
      Products.Distributes(truncated, -1, denominator);
    }
    NearestIsUnique(quotient, Round(product, denominator), product, denominator);
    NearestFits(quotient, product, denominator);
    return Ok(quotient);
  }

  lemma ProductGuard(value: int64, numerator: int64)
    requires numerator > 0
    ensures Fits(value * numerator) <==>
              !((value > 0 && value > TruncatedDivide(MAX, numerator)) ||
                (value < 0 && value < TruncatedDivide(MIN, numerator)))
  {
    var high, low := TruncatedDivide(MAX, numerator), TruncatedDivide(MIN, numerator);
    if value > high { Products.Grows(high + 1, value, numerator); } else { Products.Grows(value, high, numerator); }
    if value < low { Products.Grows(value, low - 1, numerator); } else { Products.Grows(low, value, numerator); }
    if value >= 0 { Products.Grows(0, value, numerator); } else { Products.Grows(value, 0, numerator); }
  }

  lemma NearestFits(r: int, n: int, d: int)
    requires d > 0 && Fits(n) && Nearest(r, n, d)
    ensures Fits(r)
  {
    if r > MAX {
      Products.Grows(MAX + 1, r, d);
      Products.Grows(1, d, MAX);
      assert false;
    } else if r < MIN {
      Products.Grows(r, MIN - 1, d);
      Products.Grows(1, d, -MIN);
      assert false;
    }
  }

  /** One smoothing step in integers. */
  function Smooth(value: int, scaled: int, period: int): int
    requires period > 0
  {
    value + Round(2 * (scaled - value), period + 1)
  }

  /** The integer average of scaled closes. */
  function Average(scaled: seq<int>, period: int): int
    requires scaled != [] && period > 0
  {
    var n := |scaled| - 1;
    if n == 0 then scaled[0] else Smooth(Average(scaled[..n], period), scaled[n], period)
  }

  /** The exact average, with no rounding. */
  function ExactAverage(scaled: seq<int>, period: int): real
    requires scaled != [] && period > 0
  {
    var n := |scaled| - 1;
    if n == 0 then scaled[0] as real else
    var before := ExactAverage(scaled[..n], period);
    before + (scaled[n] as real - before) * 2.0 / (period + 1) as real
  }

  /** A smoothing step lands between where it was and where it is going. */
  lemma SmoothStaysBetween(value: int, scaled: int, period: int)
    requires period > 0
    ensures value <= scaled ==> value <= Smooth(value, scaled, period) <= scaled
    ensures scaled <= value ==> scaled <= Smooth(value, scaled, period) <= value
  {
    var d, n := period + 1, 2 * (scaled - value);
    RoundIsBounded(n, d, scaled - value);
  }

  lemma RoundIsBounded(n: int, d: int, whole: int)
    requires d >= 2 && n == 2 * whole
    ensures whole >= 0 ==> 0 <= Round(n, d) <= whole
    ensures whole <= 0 ==> whole <= Round(n, d) <= 0
  {
    hide Round;
    var r := Round(n, d);
    if whole >= 0 {
      BetweenZeroAnd(r, n, d, whole);
    } else {
      RoundIsOdd(n, d);
      BetweenZeroAnd(-r, -n, d, -whole);
    }
  }

  lemma BetweenZeroAnd(r: int, n: int, d: int, whole: nat)
    requires d >= 2 && n == 2 * whole && r == Round(n, d)
    ensures 0 <= r <= whole
  {
    hide Round;
    var p := r * d;
    assert Near(p, n, d);
    Products.Grows(2, d, whole);
    assert d * whole == whole * d;
    Products.Grows(whole + 1, if r > whole then r else whole + 1, d);
    Products.Grows(if r < 0 then r else -1, -1, d);
    Products.Distributes(whole, 1, d);
  }

  /** The average stays within any bounds on the closes. */
  lemma {:induction false} AverageIsBounded(scaled: seq<int>, period: int, low: int, high: int)
    requires scaled != [] && period > 0 && forall x <- scaled :: low <= x <= high
    ensures low <= Average(scaled, period) <= high
  {
    var n := |scaled| - 1;
    assert scaled[n] in scaled;
    if n > 0 {
      assert forall x <- scaled[..n] :: x in scaled;
      AverageIsBounded(scaled[..n], period, low, high);
      SmoothStaysBetween(Average(scaled[..n], period), scaled[n], period);
    }
  }

  predicate Within(x: real, bound: real) {
    -bound <= x <= bound
  }

  /** One step adds at most half a unit of error and shrinks the error before it by
      the factor 1 - 2/(period + 1). */
  lemma SmoothError(value: int, exact: real, scaled: int, period: int)
    requires period > 0 && Within(value as real - exact, (period + 1) as real / 4.0)
    ensures Within(Smooth(value, scaled,
                          period) as real - (exact + (scaled as real - exact) * 2.0 / (period + 1) as real),
                   (period + 1) as real / 4.0)
  {
    hide Round;
    var d := (period + 1) as real;
    var n := 2 * (scaled - value);
    var r := Round(n, period + 1);
    RoundingError(r, n, period + 1);
    var error, target := value as real - exact, scaled as real;
    Contracts(error, d);
    SplitFraction(target - exact, target - value as real, d);
    assert n as real == (target - value as real) * 2.0;
  }

  /** a/d - b/d, with the factor 2 in front. */
  lemma SplitFraction(a: real, b: real, d: real)
    requires d > 0.0
    ensures a * 2.0 / d - b * 2.0 / d == (a - b) * 2.0 / d
  {
    var x, y := a * 2.0, b * 2.0;
    assert x / d - y / d == (x - y) / d;
  }

  lemma RoundingError(r: int, n: int, d: int)
    requires d > 0 && Nearest(r, n, d)
    ensures Within(r as real - n as real / d as real, 0.5)
  {
    assert (r * d) as real == r as real * d as real;
    NearMultiple(r as real, r * d, n, d);
  }

  lemma NearMultiple(r: real, multiple: int, n: int, d: int)
    requires d > 0 && Near(multiple, n, d) && multiple as real == r * d as real
    ensures Within(r - n as real / d as real, 0.5)
  {
    WholeMinusFraction(r, n as real, d as real);
    assert Within((multiple - n) as real, 0.5 * d as real);
    DivideBound((multiple - n) as real, d as real, 0.5);
  }

  lemma WholeMinusFraction(r: real, n: real, d: real)
    requires d > 0.0
    ensures r - n / d == (r * d - n) / d
  {
    var q := n / d;
    assert q * d == n;
    assert (r - q) * d == r * d - q * d;
  }

  lemma DivideBound(e: real, d: real, bound: real)
    requires d > 0.0 && Within(e, bound * d)
    ensures Within(e / d, bound)
  {
    var q := e / d;
    assert q * d == e;
    assert q > bound ==> (q - bound) * d > 0.0;
    assert (q - bound) * d == q * d - bound * d;
    assert q < -bound ==> (-bound - q) * d > 0.0;
    assert (-bound - q) * d == -(bound * d) - q * d;
  }

  lemma ScaleBound(q: real, bound: real, scale: real)
    requires Within(q, bound) && scale >= 0.0
    ensures Within(q * scale, bound * scale)
  {
    assert (bound - q) * scale >= 0.0;
    assert (bound + q) * scale >= 0.0;
  }

  lemma Contracts(error: real, d: real)
    requires d >= 2.0 && Within(error, d / 4.0)
    ensures Within(error - error * 2.0 / d, d / 4.0 - 0.5)
  {
    var q := error / d;
    assert q * d == error;
    DivideBound(error, d, 0.25);
    ScaleBound(q, 0.25, d - 2.0);
    assert error * 2.0 / d == 2.0 * q by { assert (2.0 * q) * d == error * 2.0; }
    assert q * (d - 2.0) == q * d - 2.0 * q;
  }

  /** The rounded average is within (period + 1)/4 units of the exact one, however
      many candles it has smoothed. */
  lemma {:induction false} AverageTracksExact(scaled: seq<int>, period: int)
    requires scaled != [] && period > 0
    ensures Within(Average(scaled, period) as real - ExactAverage(scaled, period), (period + 1) as real / 4.0)
  {
    var n := |scaled| - 1;
    if n > 0 {
      AverageTracksExact(scaled[..n], period);
      SmoothError(Average(scaled[..n], period), ExactAverage(scaled[..n], period), scaled[n], period);
    }
  }

  function Scaled(closes: seq<int64>): (scaled: seq<int>)
    ensures |scaled| == |closes|
  {
    seq(|closes|, i requires 0 <= i < |closes| => closes[i] * SCALE)
  }

  predicate ClosesOk(closes: seq<int64>) {
    forall i :: 0 <= i < |closes| ==> 0 < closes[i] <= MAX / SCALE
  }

  /** None of the first n closes jumps so far from the average before it that twice
      the distance leaves the 64-bit range. */
  predicate JumpsOk(closes: seq<int64>, period: int, n: nat)
    requires period > 0 && n <= |closes|
  {
    forall i :: 0 < i < n ==> JumpOk(closes, period, i)
  }

  predicate JumpOk(closes: seq<int64>, period: int, i: nat)
    requires period > 0 && 0 < i < |closes|
  {
    Fits(2 * (Scaled(closes)[i] - Average(Scaled(closes)[..i], period)))
  }

  lemma {:induction false} AverageFits(closes: seq<int64>, n: nat, period: int)
    requires 0 < n <= |closes| && period > 0 && ClosesOk(closes[..n])
    ensures 0 < Average(Scaled(closes)[..n], period) <= MAX
  {
    forall x | x in Scaled(closes)[..n] ensures 1 <= x <= MAX {
      var i :| 0 <= i < n && x == Scaled(closes)[i];
      assert closes[..n][i] == closes[i];
    }
    AverageIsBounded(Scaled(closes)[..n], period, 1, MAX);
  }

  /** The average as the source computes it, with its guards. It succeeds exactly
      when there are enough candles, every close can be scaled, no jump is too large
      and period + 1 does not wrap; the guard on the addition never fires. */
  method FixedEma(closes: seq<int64>, period: int64) returns (result: Result<int64, EmaError>)
    ensures result.Ok? <==>
              && 0 < period <= |closes| && period < MAX && ClosesOk(closes)
              && JumpsOk(closes, period, |closes|)
    ensures result.Ok? ==> result.value == Average(Scaled(closes), period)
  {
    hide Average, Round, JumpOk;
    if |closes| < period || period <= 0 {
      return Err(EmaInvalid);
    }
    var value: int64 := 0;
    for i := 0 to |closes|
      invariant ClosesOk(closes[..i]) && JumpsOk(closes, period, i) && (i >= 2 ==> period < MAX)
      invariant i > 0 ==> value == Average(Scaled(closes)[..i], period)
    {
      if closes[i] <= 0 || closes[i] > MAX / SCALE {
        return Err(EmaInvalid);
      }
      var next: int64 := closes[i] * SCALE;
      assert closes[..i + 1] == closes[..i] + [closes[i]];
      AverageStep(closes, i, period);
      if i == 0 {
        value := next;
        continue;
      }
      AverageFits(closes, i, period);
      var delta: int64 := next - value;
      var denominator: int64 := if period < MAX then period + 1 else MIN;
      var adjustment := RoundedFraction(delta, 2, denominator);
      if adjustment.Err? {
        assert period < MAX ==> !JumpOk(closes, period, i);
        return Err(EmaInvalid);
      }
      SmoothStaysBetween(value, next, period);
      if (adjustment.value > 0 && value > MAX - adjustment.value) ||
         (adjustment.value < 0 && value < MIN - adjustment.value) {
        assert false;
      }
      value := value + adjustment.value;
    }
    assert closes[..|closes|] == closes && Scaled(closes)[..|closes|] == Scaled(closes);
    return Ok(value);
  }

  lemma AverageStep(closes: seq<int64>, i: nat, period: int)
    requires i < |closes| && period > 0
    ensures i == 0 ==> Average(Scaled(closes)[..1], period) == closes[0] * SCALE
    ensures i > 0 ==> Average(Scaled(closes)[..i + 1], period) ==
                      Smooth(Average(Scaled(closes)[..i], period), closes[i] * SCALE, period)
    ensures i > 0 ==> (JumpOk(closes, period, i) <==>
                       Fits(2 * (closes[i] * SCALE - Average(Scaled(closes)[..i], period))))
  {
    assert Scaled(closes)[..i + 1][..i] == Scaled(closes)[..i];
  }

  /** What an accepted average promises: it lies between the least and the greatest
      scaled close, and within (period + 1)/4 units of the exact average. */
  lemma AcceptedAverage(closes: seq<int64>, period: int64)
    requires 0 < period <= |closes| && ClosesOk(closes)
    ensures exists i :: 0 <= i < |closes| && Scaled(closes)[i] <= Average(Scaled(closes), period)
    ensures exists i :: 0 <= i < |closes| && Scaled(closes)[i] >= Average(Scaled(closes), period)
    ensures Within(Average(Scaled(closes), period) as real - ExactAverage(Scaled(closes), period),
                   (period + 1) as real / 4.0)
  {
    var scaled := Scaled(closes);
    AverageTracksExact(scaled, period);
    var low, high := Extremes(scaled);
    AverageIsBounded(scaled, period, scaled[low], scaled[high]);
  }

  lemma {:induction false} Extremes(s: seq<int>) returns (low: nat, high: nat)
    requires s != []
    ensures low < |s| && high < |s| && forall x <- s :: s[low] <= x <= s[high]
  {
    var n := |s| - 1;
    if n == 0 {
      return 0, 0;
    }
    low, high := Extremes(s[..n]);
    assert forall x <- s[..n] :: s[low] <= x <= s[high];
    assert s == s[..n] + [s[n]];
    if s[n] < s[low] { low := n; }
    if s[n] > s[high] { high := n; }
  }

  /** Closes up to half the scalable range are always accepted. */
  lemma ModerateClosesAreAccepted(closes: seq<int64>, period: int64)
    requires 0 < period <= |closes| && forall i :: 0 <= i < |closes| ==> 0 < closes[i] <= MAX / (2 * SCALE)
    ensures ClosesOk(closes) && JumpsOk(closes, period, |closes|)
  {
    forall n | 0 < n < |closes|
      ensures JumpOk(closes, period, n)
    {
      AverageIsBounded(Scaled(closes)[..n], period, 1, MAX / 2);
    }
  }
}
