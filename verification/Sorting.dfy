/** What the source uses its sorting routine for: some arrangement of the same
    elements in which no later element is less than an earlier one. */
module Sorting {
  ghost predicate StrictOrder<T(!new)>(less: (T, T) -> bool) {
    && (forall a :: !less(a, a))
    && forall a, b, c :: less(a, b) && less(b, c) ==> less(a, c)
  }

  predicate Sorted<T>(less: (T, T) -> bool, s: seq<T>) {
    forall i, j :: 0 <= i < j < |s| ==> !less(s[j], s[i])
  }

  function Insert<T(!new)>(less: (T, T) -> bool, s: seq<T>, x: T): (r: seq<T>)
    requires StrictOrder(less) && Sorted(less, s)
    ensures Sorted(less, r) && multiset(r) == multiset(s) + multiset{x}
  {
    if s == [] then [x]
    else if less(x, s[0]) then
      InsertFirst(less, s, x);
      [x] + s
    else
      assert s == [s[0]] + s[1..];
      var rest := Insert(less, s[1..], x);
      InsertLater(less, s, x, rest);
      [s[0]] + rest
  }

  lemma InsertFirst<T(!new)>(less: (T, T) -> bool, s: seq<T>, x: T)
    requires StrictOrder(less) && Sorted(less, s) && s != [] && less(x, s[0])
    ensures Sorted(less, [x] + s)
  {
    var r := [x] + s;
    forall i, j | 0 <= i < j < |r| ensures !less(r[j], r[i]) {
      if i == 0 {
        assert r[j] == s[j - 1] && (j > 1 ==> !less(s[j - 1], s[0]));
      }
    }
  }

  lemma InsertLater<T(!new)>(less: (T, T) -> bool, s: seq<T>, x: T, rest: seq<T>)
    requires Sorted(less, s) && s != [] && !less(x, s[0]) && Sorted(less, rest)
    requires multiset(rest) == multiset(s[1..]) + multiset{x}
    ensures Sorted(less, [s[0]] + rest)
  {
    forall j | 0 <= j < |rest| ensures !less(rest[j], s[0]) {
      assert rest[j] in multiset(rest);
      if rest[j] != x {
        assert rest[j] in s[1..];
      }
    }
  }

  function Sort<T(!new)>(less: (T, T) -> bool, s: seq<T>): (r: seq<T>)
    requires StrictOrder(less)
    ensures Sorted(less, r) && multiset(r) == multiset(s)
  {
    if s == [] then [] else
    assert s == s[..|s| - 1] + [s[|s| - 1]];
    Insert(less, Sort(less, s[..|s| - 1]), s[|s| - 1])
  }

  lemma HeadIsLeast<T>(less: (T, T) -> bool, a: seq<T>, x: T)
    requires Sorted(less, a) && x in a && x != a[0]
    ensures !less(x, a[0])
  {
    var i :| 0 <= i < |a| && a[i] == x;
  }

  /** When different elements are never tied the arrangement is unique, so it does
      not depend on the order in which the elements were supplied. */
  lemma {:induction false} SortedIsUnique<T(!new)>(less: (T, T) -> bool, a: seq<T>, b: seq<T>)
    requires Sorted(less, a) && Sorted(less, b) && multiset(a) == multiset(b)
    requires forall x, y :: x in a && y in a && x != y ==> less(x, y) || less(y, x)
    ensures a == b
  {
    hide Sorted;
    if a == [] {
      assert |multiset(b)| == 0;
    } else {
      HeadsAgree(less, a, b);
      SortedTail(less, a);
      SortedTail(less, b);
      assert a == [a[0]] + a[1..] && b == [b[0]] + b[1..];
      assert multiset(a[1..]) == multiset(a) - multiset{a[0]};
      assert multiset(b[1..]) == multiset(b) - multiset{b[0]};
      assert forall x :: x in a[1..] ==> x in a;
      SortedIsUnique(less, a[1..], b[1..]);
    }
  }

  lemma SortedTail<T>(less: (T, T) -> bool, a: seq<T>)
    requires Sorted(less, a) && a != []
    ensures Sorted(less, a[1..])
  {
  }

  lemma HeadsAgree<T(!new)>(less: (T, T) -> bool, a: seq<T>, b: seq<T>)
    requires Sorted(less, a) && Sorted(less, b) && multiset(a) == multiset(b) && a != []
    requires forall x, y :: x in a && y in a && x != y ==> less(x, y) || less(y, x)
    ensures b != [] && a[0] == b[0]
  {
    hide Sorted;
    assert a[0] in multiset(b) && |multiset(a)| > 0;
    assert b[0] in multiset(a);
    if a[0] != b[0] {
      HeadIsLeast(less, b, a[0]);
      HeadIsLeast(less, a, b[0]);
      assert false;
    }
  }
}
