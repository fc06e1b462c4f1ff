/**
 * The pieces of Python's `sorted`, `min`, `max` and `statistics.median`
 * the engine applies to pass totals. Totals are exact reals here.
 */
module Stats {

  predicate Ordered(s: seq<real>) {
    forall i, j :: 0 <= i < j < |s| ==> s[i] <= s[j]
  }

  /** `x` put into an ordered list before the first element not below it. */
  function Insert(x: real, s: seq<real>): (r: seq<real>)
    requires Ordered(s)
    ensures Ordered(r)
    ensures multiset(r) == multiset(s) + multiset{x}
    ensures |r| == |s| + 1
  {
    if s == [] || x <= s[0] then
      ConsOrdered(x, s);
      [x] + s
    else
      OrderedTail(s);
      var rest := Insert(x, s[1..]);
      InsertLeads(s[0], x, s[1..], rest);
      MultisetCons(s, rest, x);
      [s[0]] + rest
  }

  lemma MultisetCons(s: seq<real>, rest: seq<real>, x: real)
    requires s != [] && multiset(rest) == multiset(s[1..]) + multiset{x}
    ensures multiset([s[0]] + rest) == multiset(s) + multiset{x}
  {
    assert s == [s[0]] + s[1..];
  }

  /** An element no greater than the first of an ordered list keeps it ordered when put in front. */
  lemma ConsOrdered(a: real, s: seq<real>)
    requires Ordered(s) && (s == [] || a <= s[0])
    ensures Ordered([a] + s)
  {
    var r := [a] + s;
    forall i, j | 0 <= i < j < |r| ensures r[i] <= r[j] {
      assert r[j] == s[j - 1];
      if i == 0 {
        assert s[0] <= s[j - 1];
      } else {
        assert r[i] == s[i - 1];
      }
    }
  }

  /** An element no greater than `x` and than an ordered list stays first once `x` is inserted. */
  lemma InsertLeads(a: real, x: real, s: seq<real>, rest: seq<real>)
    requires a <= x && (s == [] || a <= s[0]) && Ordered(s)
    requires Ordered(rest) && multiset(rest) == multiset(s) + multiset{x}
    ensures Ordered([a] + rest)
  {
    if rest != [] {
      assert rest[0] in multiset(rest);
      if rest[0] != x {
        OrderedFirst(s, rest[0]);
      }
    }
    ConsOrdered(a, rest);
  }

  /** `sorted(xs)`: the same elements, in ascending order. */
  function Sort(xs: seq<real>): (r: seq<real>)
    ensures Ordered(r)
    ensures multiset(r) == multiset(xs)
    ensures |r| == |xs|
  {
    if xs == [] then []
    else
      assert xs == [xs[0]] + xs[1..];
      Insert(xs[0], Sort(xs[1..]))
  }

  /** The first element of an ordered list is no greater than any of its elements. */
  lemma OrderedFirst(s: seq<real>, x: real)
    requires Ordered(s) && x in s
    ensures s[0] <= x
  {
    var k :| 0 <= k < |s| && s[k] == x;
    assert s[0] <= s[k];
  }

  /** The last element of an ordered list is no smaller than any of its elements. */
  lemma OrderedLast(s: seq<real>, x: real)
    requires Ordered(s) && x in s
    ensures x <= s[|s| - 1]
  {
    var k :| 0 <= k < |s| && s[k] == x;
    assert s[k] <= s[|s| - 1];
  }

  lemma MultisetTail(s: seq<real>)
    requires s != []
    ensures multiset(s[1..]) == multiset(s) - multiset{s[0]}
  {
    assert s == [s[0]] + s[1..];
  }

  /** Two ordered lists with the same elements are the same list. */
  lemma {:induction false} OrderedUnique(a: seq<real>, b: seq<real>)
    requires Ordered(a) && Ordered(b) && multiset(a) == multiset(b)
    ensures a == b
    decreases |a|
  {
    if a == [] {
      assert |b| == |multiset(b)| == 0;
    } else {
      HeadsAgree(a, b);
      OrderedTail(a);
      OrderedTail(b);
      OrderedUnique(a[1..], b[1..]);
      assert a == [a[0]] + a[1..];
      assert b == [b[0]] + b[1..];
    }
  }

  /** Two non-empty ordered lists with the same elements start alike, and their tails hold the same elements. */
  lemma HeadsAgree(a: seq<real>, b: seq<real>)
    requires Ordered(a) && Ordered(b) && multiset(a) == multiset(b) && a != []
    ensures b != [] && a[0] == b[0] && multiset(a[1..]) == multiset(b[1..])
  {
    assert a[0] in multiset(b);
    assert b != [];
    assert b[0] in multiset(a);
    OrderedFirst(a, b[0]);
    OrderedFirst(b, a[0]);
    MultisetTail(a);
    MultisetTail(b);
  }

  lemma OrderedTail(s: seq<real>)
    requires Ordered(s) && s != []
    ensures Ordered(s[1..])
  {
    forall i, j | 0 <= i < j < |s[1..]| ensures s[1..][i] <= s[1..][j] {
      assert s[1..][i] == s[i + 1] && s[1..][j] == s[j + 1];
    }
  }

  /** Sorting forgets the order it was given: a permutation sorts to the same list. */
  lemma SortPermutation(xs: seq<real>, ys: seq<real>)
    requires multiset(xs) == multiset(ys)
    ensures Sort(xs) == Sort(ys)
  {
    OrderedUnique(Sort(xs), Sort(ys));
  }

  /** `statistics.median`: the middle of the sorted list, or the mean of the two middles. */
  function Median(xs: seq<real>): real
    requires xs != []
  {
    Middle(Sort(xs))
  }

  /** The middle element of a list, or the mean of its two middle elements. */
  function Middle(s: seq<real>): real
    requires s != []
  {
    var n := |s|;
    if n % 2 == 1 then s[n / 2] else (s[n / 2 - 1] + s[n / 2]) / 2.0
  }

  /** `min(xs)`. */
  function Min(xs: seq<real>): (m: real)
    requires xs != []
    ensures m in xs
    ensures forall k :: 0 <= k < |xs| ==> m <= xs[k]
  {
    if |xs| == 1 then xs[0]
    else
      var m := Min(xs[..|xs| - 1]);
      assert forall k :: 0 <= k < |xs| - 1 ==> xs[..|xs| - 1][k] == xs[k];
      if xs[|xs| - 1] < m then xs[|xs| - 1] else m
  }

  /** `max(xs)`. */
  function Max(xs: seq<real>): (m: real)
    requires xs != []
    ensures m in xs
    ensures forall k :: 0 <= k < |xs| ==> xs[k] <= m
  {
    if |xs| == 1 then xs[0]
    else
      var m := Max(xs[..|xs| - 1]);
      assert forall k :: 0 <= k < |xs| - 1 ==> xs[..|xs| - 1][k] == xs[k];
      if xs[|xs| - 1] > m then xs[|xs| - 1] else m
  }

  /** The first element of a sorted copy is the smallest value. */
  lemma SortedFirst(xs: seq<real>, s: seq<real>)
    requires xs != [] && Ordered(s) && multiset(s) == multiset(xs)
    ensures s != [] && s[0] == Min(xs)
  {
    assert Min(xs) in multiset(s);
    OrderedFirst(s, Min(xs));
    assert s[0] in multiset(xs);
    MinLeast(xs, s[0]);
  }

  /** The last element of a sorted copy is the largest value. */
  lemma SortedLast(xs: seq<real>, s: seq<real>)
    requires xs != [] && Ordered(s) && multiset(s) == multiset(xs)
    ensures s != [] && s[|s| - 1] == Max(xs)
  {
    assert Max(xs) in multiset(s);
    OrderedLast(s, Max(xs));
    assert s[|s| - 1] in multiset(xs);
    MaxGreatest(xs, s[|s| - 1]);
  }

  lemma MinLeast(xs: seq<real>, x: real)
    requires xs != [] && x in xs
    ensures Min(xs) <= x
  {
    var k :| 0 <= k < |xs| && xs[k] == x;
  }

  lemma MaxGreatest(xs: seq<real>, x: real)
    requires xs != [] && x in xs
    ensures x <= Max(xs)
  {
    var k :| 0 <= k < |xs| && xs[k] == x;
  }

  /** The median lies between the smallest and the largest value. */
  lemma MedianBetween(xs: seq<real>)
    requires xs != []
    ensures Min(xs) <= Median(xs) <= Max(xs)
  {
    var s := Sort(xs);
    SortedFirst(xs, s);
    SortedLast(xs, s);
    MiddleBetween(s);
  }

  /** The middle of an ordered list, or the mean of its two middles, lies between its ends. */
  lemma MiddleBetween(s: seq<real>)
    requires Ordered(s) && s != []
    ensures s[0] <= Middle(s) <= s[|s| - 1]
  {
    var n := |s|;
    assert s[0] <= s[n / 2] <= s[n - 1];
    if n % 2 == 0 {
      assert s[0] <= s[n / 2 - 1] <= s[n - 1];
    }
  }

  /** The median does not depend on the order of the values. */
  lemma MedianPermutation(xs: seq<real>, ys: seq<real>)
    requires xs != [] && multiset(xs) == multiset(ys)
    ensures ys != [] && Median(xs) == Median(ys)
  {
    assert |ys| == |multiset(ys)| == |xs|;
    SortPermutation(xs, ys);
  }

  /** Values that all agree have that value as their median. */
  lemma MedianOfEqual(xs: seq<real>, v: real)
    requires xs != [] && forall k :: 0 <= k < |xs| ==> xs[k] == v
    ensures Median(xs) == v
  {
    var s := Sort(xs);
    forall k | 0 <= k < |s| ensures s[k] == v {
      assert s[k] in multiset(xs);
      var j :| 0 <= j < |xs| && xs[j] == s[k];
    }
  }
}
