/** The at-the-money strike, as it is chosen in two places. */
module Strikes {
  import opened Wrappers
  import opened Int64
  import opened Sorting
  import Products

  type Strike = x: int | 0 <= x <= MAX

  datatype StrikeError = OptionUnavailable | AmbiguousContract | InvalidSelection

  /** The listed strike nearest to the reference; of two equally near, the higher. */
  predicate NearestUp(strikes: seq<Strike>, reference: int, chosen: int) {
    && chosen in strikes
    && forall s <- strikes :: s == chosen || Further(s, reference, chosen)
  }

  predicate Further(s: int, reference: int, chosen: int) {
    || Magnitude(s - reference) > Magnitude(chosen - reference)
    || (Magnitude(s - reference) == Magnitude(chosen - reference) && s < chosen)
  }

  lemma NearestUpIsUnique(strikes: seq<Strike>, reference: int, a: int, b: int)
    requires NearestUp(strikes, reference, a) && NearestUp(strikes, reference, b)
    ensures a == b
  {
  }

  predicate Increasing(strikes: seq<Strike>) {
    forall i, j :: 0 <= i < j < |strikes| ==> strikes[i] < strikes[j]
  }

  /** The listed strikes, each once, in increasing order. */
  predicate Grid(strikes: seq<Strike>, listed: seq<Strike>) {
    Increasing(strikes) && forall s: Strike :: s in strikes <==> s in listed
  }

  predicate Below(a: Strike, b: Strike) {
    a < b
  }

  method UniqueStrikes(listed: seq<Strike>) returns (strikes: seq<Strike>)
    ensures Grid(strikes, listed)
  {
    var seen: set<Strike> := {};
    var found: seq<Strike> := [];
    for i := 0 to |listed|
      invariant forall s: Strike :: s in found <==> s in listed[..i]
      invariant forall s: Strike :: s in seen <==> s in found
      invariant forall j, k :: 0 <= j < k < |found| ==> found[j] != found[k]
    {
      assert listed[..i + 1] == listed[..i] + [listed[i]];
      if listed[i] !in seen {
        seen := seen + {listed[i]};
        found := found + [listed[i]];
      }
    }
    assert listed[..|listed|] == listed;
    strikes := Sort(Below, found);
    SortingDistinct(found, strikes);
  }

  lemma SortingDistinct(found: seq<Strike>, strikes: seq<Strike>)
    requires Sorted(Below, strikes) && multiset(strikes) == multiset(found)
    requires forall j, k :: 0 <= j < k < |found| ==> found[j] != found[k]
    ensures Increasing(strikes) && forall s: Strike :: s in strikes <==> s in found
  {
    forall s: Strike ensures s in strikes <==> s in found {
      assert s in strikes <==> s in multiset(strikes);
    }
    forall i, j | 0 <= i < j < |strikes| ensures strikes[i] < strikes[j] {
      assert !Below(strikes[j], strikes[i]);
      if strikes[i] == strikes[j] {
        AtLeastTwo(strikes, i, j);
        AtMostOne(found, strikes[i]);
        assert false;
      }
    }
  }

  lemma AtLeastTwo(s: seq<Strike>, i: nat, j: nat)
    requires i < j < |s| && s[i] == s[j]
    ensures multiset(s)[s[i]] >= 2
  {
    assert s == s[..j] + [s[j]] + s[j + 1..];
    assert s[i] in s[..j];
  }

  lemma {:induction false} AtMostOne(s: seq<Strike>, x: Strike)
    requires forall j, k :: 0 <= j < k < |s| ==> s[j] != s[k]
    ensures multiset(s)[x] <= 1
  {
    if s != [] {
      var n := |s| - 1;
      AtMostOne(s[..n], x);
      assert s == s[..n] + [s[n]];
    }
  }

  /** The distance of a strike from the one before it. */
  function Gap(strikes: seq<Strike>, i: nat): int
    requires 0 < i < |strikes|
  {
    (strikes[i] as int) - (strikes[i - 1] as int)
  }

  predicate Uniform(strikes: seq<Strike>, d: int) {
    |strikes| >= 2 && d > 0 && forall i :: 0 < i < |strikes| ==> Gap(strikes, i) == d
  }

  method UniformInterval(strikes: seq<Strike>) returns (interval: Option<int>)
    ensures interval.Some? ==> Uniform(strikes, interval.value)
    ensures interval.None? ==> forall d :: !Uniform(strikes, d)
  {
    if |strikes| < 2 {
      return None;
    }
    var d := Gap(strikes, 1);
    if d <= 0 {
      return None;
    }
    for i := 2 to |strikes|
      invariant forall k :: 0 < k < i ==> Gap(strikes, k) == d
    {
      if Gap(strikes, i) != d {
        return None;
      }
    }
    return Some(d);
  }

  /** t is the multiple of the interval nearest to the value, ties going up. */
  predicate NearestMultiple(t: int, value: int, interval: int)
    requires interval > 0
  {
    t % interval == 0 && 2 * (t - value) <= interval && 2 * (value - t) < interval
  }

  function RoundHalfUp(value: int, interval: int): (t: int)
    requires value > 0 && interval > 0
    ensures NearestMultiple(t, value, interval)
  {
    var lower := value / interval * interval;
    MultipleOf(value / interval, interval);
    MultipleOf(value / interval + 1, interval);
    Products.Distributes(value / interval, 1, interval);
    if value - lower >= interval - (value - lower) then lower + interval else lower
  }

  lemma MultipleOf(k: int, interval: int)
    requires interval > 0
    ensures (k * interval) % interval == 0
  {
    ModOfMultiple(k, interval, 0);
  }

  lemma ModOfMultiple(k: int, d: int, r: int)
    requires d > 0 && 0 <= r < d
    ensures (k * d + r) % d == r
  {
    var x := k * d + r;
    var q := x / d;
    assert x == q * d + x % d;
    if q > k {
      Products.Grows(k + 1, q, d);
      Products.Distributes(k, 1, d);
    } else if q < k {
      Products.Grows(q + 1, k, d);
      Products.Distributes(q, 1, d);
    }
  }

  /** Different multiples are an interval or more apart. */
  lemma MultiplesAreApart(a: int, b: int, d: int)
    requires d > 0 && a % d == 0 && b % d == 0 && a < b
    ensures a + d <= b
  {
    var p, q := a / d, b / d;
    assert a == p * d && b == q * d;
    if p >= q {
      Products.Grows(q, p, d);
    } else {
      Products.Grows(p + 1, q, d);
      Products.Distributes(p, 1, d);
    }
  }

  lemma NearestMultipleIsUnique(s: int, t: int, value: int, d: int)
    requires d > 0 && NearestMultiple(s, value, d) && NearestMultiple(t, value, d)
    ensures s == t
  {
    if s < t { MultiplesAreApart(s, t, d); }
    if t < s { MultiplesAreApart(t, s, d); }
  }

  lemma {:induction false} UniformIsAligned(strikes: seq<Strike>, d: int, k: nat, i: nat)
    requires Uniform(strikes, d) && k <= i < |strikes|
    ensures strikes[k] % d == strikes[i] % d
  {
    if k < i {
      UniformIsAligned(strikes, d, k, i - 1);
      assert Gap(strikes, i) == d;
      AddingInterval(strikes[i - 1], d);
    }
  }

  lemma AddingInterval(x: int, d: int)
    requires d > 0
    ensures (x + d) % d == x % d
  {
    Products.Distributes(x / d, 1, d);
    ModOfMultiple(x / d + 1, d, x % d);
  }

  /** On a uniform grid that holds the rounded reference, that strike is the listed
      one nearest to the reference. */
  lemma RoundedIsNearest(strikes: seq<Strike>, d: int, reference: int, t: int)
    requires Uniform(strikes, d) && reference > 0 && NearestMultiple(t, reference, d) && t in strikes
    ensures NearestUp(strikes, reference, t)
  {
    var k :| 0 <= k < |strikes| && strikes[k] == t;
    forall i | 0 <= i < |strikes| && strikes[i] != t ensures Further(strikes[i], reference, t) {
      if k <= i { UniformIsAligned(strikes, d, k, i); } else { UniformIsAligned(strikes, d, i, k); }
      if strikes[i] < t { MultiplesAreApart(strikes[i], t, d); } else { MultiplesAreApart(t, strikes[i], d); }
    }
  }

  /** The library's binary search for the first strike not below a target. */
  method Search(strikes: seq<Strike>, target: int) returns (i: nat)
    requires Increasing(strikes)
    ensures i <= |strikes|
    ensures (forall k :: 0 <= k < i ==> strikes[k] < target) && forall k :: i <= k < |strikes| ==> strikes[k] >= target
  {
    var j := |strikes|;
    i := 0;
    while i < j
      invariant i <= j <= |strikes|
      invariant forall k :: 0 <= k < i ==> strikes[k] < target
      invariant forall k :: j <= k < |strikes| ==> strikes[k] >= target
    {
      var h := (i + j) / 2;
      if strikes[h] < target {
        i := h + 1;
      } else {
        j := h;
      }
    }
  }

  /** The listed strikes are evenly spaced. */
  ghost predicate Even(listed: seq<Strike>, d: int) {
    exists strikes :: Grid(strikes, listed) && Uniform(strikes, d)
  }

  lemma WithoutLast(a: seq<Strike>, s: Strike)
    requires Increasing(a) && a != []
    ensures Increasing(a[..|a| - 1]) && (s in a[..|a| - 1] <==> s in a && s != a[|a| - 1])
    ensures s in a ==> s <= a[|a| - 1]
  {
  }

  lemma {:induction false} GridIsUnique(a: seq<Strike>, b: seq<Strike>)
    requires Increasing(a) && Increasing(b) && forall s: Strike :: s in a <==> s in b
    ensures a == b
  {
    hide Increasing;
    assert b != [] ==> b[0] in b && |a| > 0;
    if a != [] {
      assert a[0] in a && a[0] in b;
      var m, n := |a| - 1, |b| - 1;
      assert a[m] in b && b[n] in a;
      WithoutLast(a, b[n]);
      WithoutLast(b, a[m]);
      forall s: Strike ensures s in a[..m] <==> s in b[..n] {
        WithoutLast(a, s);
        WithoutLast(b, s);
      }
      GridIsUnique(a[..m], b[..n]);
      assert a == a[..m] + [a[m]] && b == b[..n] + [b[n]];
    }
  }

  /** What evenness says is the same of every listing of the grid. */
  lemma EvenExactly(strikes: seq<Strike>, listed: seq<Strike>, d: int)
    requires Grid(strikes, listed)
    ensures Even(listed, d) <==> Uniform(strikes, d)
  {
    hide Uniform;
    if Even(listed, d) {
      var other :| Grid(other, listed) && Uniform(other, d);
      GridIsUnique(strikes, other);
    }
  }

  lemma NearestOfGrid(strikes: seq<Strike>, listed: seq<Strike>, reference: int, chosen: int)
    requires Grid(strikes, listed)
    ensures NearestUp(strikes, reference, chosen) <==> NearestUp(listed, reference, chosen)
  {
  }

  /** The strike for an order. It succeeds exactly when the listed strikes are evenly
      spaced and the rounded reference is one of them; the result is then the listed
      strike nearest to the reference. A rounded reference beyond 64 bits wraps to a
      negative number, which is not listed. */
  method ResolveStrike(listed: seq<Strike>, reference: int64) returns (result: Result<Strike, StrikeError>)
    requires reference > 0
    ensures result.Ok? ==> NearestUp(listed, reference, result.value)
    ensures result.Ok? <==> exists d :: d > 0 && Even(listed, d) && RoundHalfUp(reference, d) in listed
    ensures result == Err(AmbiguousContract) <==>
              (exists a, b :: a in listed && b in listed && a != b) && forall d :: !Even(listed, d)
    ensures result != Err(InvalidSelection)
  {
    hide RoundHalfUp, NearestMultiple, NearestUp, Even;
    var values := UniqueStrikes(listed);
    forall d ensures Even(listed, d) <==> Uniform(values, d) { EvenExactly(values, listed, d); }
    SeveralExactly(values, listed);
    if |values| < 2 {
      return Err(OptionUnavailable);
    }
    var interval := UniformInterval(values);
    if interval.None? {
      return Err(AmbiguousContract);
    }
    UniformIsOne(values, interval.value);
    var rounded := RoundHalfUp(reference, interval.value);
    RoundedIsModest(reference, interval.value);
    var target := if rounded <= MAX then rounded else rounded - (MAX - MIN + 1);
    var center := Search(values, target);
    if center == |values| || values[center] != target {
      assert target !in values;
      return Err(OptionUnavailable);
    }
    assert target in values && target == rounded;
    RoundedIsNearest(values, interval.value, reference, target);
    NearestOfGrid(values, listed, reference, target);
    return Ok(target);
  }

  lemma SeveralExactly(strikes: seq<Strike>, listed: seq<Strike>)
    requires Grid(strikes, listed)
    ensures |strikes| >= 2 <==> exists a, b :: a in listed && b in listed && a != b
  {
    if |strikes| >= 2 {
      assert strikes[0] in strikes && strikes[1] in strikes;
    }
    if a, b :| a in listed && b in listed && a != b {
      assert a in strikes && b in strikes;
    }
  }

  lemma UniformIsOne(strikes: seq<Strike>, d: int)
    requires Uniform(strikes, d)
    ensures d <= MAX && forall e :: Uniform(strikes, e) ==> e == d
  {
    assert Gap(strikes, 1) == d;
  }

  lemma RoundedIsModest(reference: int64, d: int)
    requires reference > 0 && 0 < d <= MAX
    ensures RoundHalfUp(reference, d) <= 2 * MAX
  {
  }

  /** The five strikes around the choice are evenly spaced. */
  predicate EvenAround(strikes: seq<Strike>, center: nat)
    requires 2 <= center < |strikes| - 2
  {
    forall i :: center - 1 <= i <= center + 2 ==> Gap(strikes, i) == Gap(strikes, center)
  }

  /** The strike has two more on either side of it, the five evenly spaced. */
  ghost predicate Central(listed: seq<Strike>, s: int) {
    exists strikes, center: nat ::
      Grid(strikes, listed) && 2 <= center < |strikes| - 2 && strikes[center] == s && EvenAround(strikes, center)
  }

  lemma CentralExactly(strikes: seq<Strike>, listed: seq<Strike>, center: nat)
    requires Grid(strikes, listed) && center < |strikes|
    ensures Central(listed, strikes[center]) <==> 2 <= center < |strikes| - 2 && EvenAround(strikes, center)
  {
    if Central(listed, strikes[center]) {
      var other, k: nat :| Grid(other, listed) && 2 <= k < |other| - 2 && other[k] == strikes[center] &&
        EvenAround(other, k);
      GridIsUnique(strikes, other);
      assert k == center;
    }
  }

  /** The strike around which mappings are generated: the nearest listed one, exactly
      when at least two more are listed on either side at even distances. */
  method MappingStrike(listed: seq<Strike>, reference: int64) returns (result: Result<Strike, StrikeError>)
    ensures result.Ok? ==> NearestUp(listed, reference, result.value) && Central(listed, result.value)
    ensures result.Err? ==> result.error == InvalidSelection
    ensures result.Err? && reference > 0 ==> forall s: Strike :: NearestUp(listed, reference, s) ==> !Central(listed, s)
  {
    hide NearestUp, Central, EvenAround, Increasing;
    var values := UniqueStrikes(listed);
    if reference <= 0 {
      return Err(InvalidSelection);
    }
    if |values| < 5 {
      FewAreNotCentral(values, listed);
      return Err(InvalidSelection);
    }
    var at := Search(values, reference);
    ghost var first := at;
    if at == |values| {
      at := at - 1;
    } else if at > 0 {
      if reference - values[at - 1] < values[at] - reference {
        at := at - 1;
      }
    }
    SearchedIsNearest(values, reference, first, at);
    NearestOfGrid(values, listed, reference, values[at]);
    CentralExactly(values, listed, at);
    forall s: Strike | NearestUp(listed, reference, s) ensures s == values[at] {
      NearestUpIsUnique(listed, reference, s, values[at]);
    }
    if at < 2 || at + 2 >= |values| {
      return Err(InvalidSelection);
    }
    var even := CheckAround(values, at);
    return if even then Ok(values[at]) else Err(InvalidSelection);
  }

  method CheckAround(values: seq<Strike>, at: nat) returns (even: bool)
    requires 2 <= at < |values| - 2
    ensures even <==> EvenAround(values, at)
  {
    var interval := Gap(values, at);
    for i := at - 1 to at + 3
      invariant forall k :: at - 1 <= k < i ==> Gap(values, k) == interval
    {
      if Gap(values, i) != interval {
        return false;
      }
    }
    return true;
  }

  lemma FewAreNotCentral(strikes: seq<Strike>, listed: seq<Strike>)
    requires Grid(strikes, listed) && |strikes| < 5
    ensures forall s :: !Central(listed, s)
  {
    forall s ensures !Central(listed, s) {
      if Central(listed, s) {
        var other, k: nat :| Grid(other, listed) && 2 <= k < |other| - 2 && other[k] == s && EvenAround(other, k);
        GridIsUnique(strikes, other);
      }
    }
  }

  lemma SearchedIsNearest(strikes: seq<Strike>, reference: int, first: nat, center: nat)
    requires Increasing(strikes) && strikes != [] && first <= |strikes|
    requires (forall k :: 0 <= k < first ==> strikes[k] < reference) &&
             forall k :: first <= k < |strikes| ==> strikes[k] >= reference
    requires center == if first == |strikes| then first - 1
                       else if first > 0 && reference - strikes[first - 1] < strikes[first] - reference then first - 1
                       else first
    ensures NearestUp(strikes, reference, strikes[center])
  {
    forall i | 0 <= i < |strikes| && i != center ensures Further(strikes[i], reference, strikes[center]) {
      if i < first && first > 0 {
        assert strikes[i] <= strikes[first - 1] < reference;
      } else {
        assert strikes[first] <= strikes[i];
      }
    }
  }

  /** On an evenly spaced grid, whatever the mapping generation chooses inside it, the
      rounding rule chooses too if and only if the grid is aligned to its interval. */
  lemma AlignedGridAgrees(strikes: seq<Strike>, d: int, reference: int64, center: nat)
    requires Uniform(strikes, d) && reference > 0
    requires 0 < center < |strikes| - 1 && NearestUp(strikes, reference, strikes[center])
    ensures RoundHalfUp(reference, d) == strikes[center] <==> strikes[0] % d == 0
  {
    UniformIsAligned(strikes, d, 0, center);
    assert Gap(strikes, center) == d && Gap(strikes, center + 1) == d;
    assert strikes[center - 1] in strikes && strikes[center + 1] in strikes;
    assert Further(strikes[center - 1], reference, strikes[center]);
    assert Further(strikes[center + 1], reference, strikes[center]);
    if strikes[0] % d == 0 {
      NearestMultipleIsUnique(RoundHalfUp(reference, d), strikes[center], reference, d);
    }
  }
}
