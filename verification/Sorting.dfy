/** Sorting and counting on sequences, as used for the library sorts of the Go sources. */
module Sorting {

  ghost predicate TotalPreorder<T(!new)>(leq: (T, T) -> bool) {
    && (forall x, y :: leq(x, y) || leq(y, x))
    && (forall x, y, z :: leq(x, y) && leq(y, z) ==> leq(x, z))
  }

  ghost predicate SortedBy<T>(leq: (T, T) -> bool, s: seq<T>) {
    forall i, j :: 0 <= i < j < |s| ==> leq(s[i], s[j])
  }

  /** Puts x before the first element it does not exceed. */
  function Insert<T>(x: T, s: seq<T>, leq: (T, T) -> bool): (r: seq<T>)
    ensures multiset(r) == multiset(s) + multiset{x}
  {
    if s == [] || leq(x, s[0]) then [x] + s
    else
      assert s == [s[0]] + s[1..];
      [s[0]] + Insert(x, s[1..], leq)
  }

  /** A stable sort: equal elements keep their order. */
  function Sort<T>(s: seq<T>, leq: (T, T) -> bool): (r: seq<T>)
    ensures multiset(r) == multiset(s)
  {
    if s == [] then []
    else
      assert s == [s[0]] + s[1..];
      Insert(s[0], Sort(s[1..], leq), leq)
  }

  lemma {:induction false} SamePermutation<T>(a: seq<T>, b: seq<T>)
    requires multiset(a) == multiset(b)
    ensures |a| == |b|
    ensures forall x :: x in a <==> x in b
  {
    assert |multiset(a)| == |multiset(b)|;
    assert forall x :: x in a <==> x in multiset(a);
    assert forall x :: x in b <==> x in multiset(b);
  }

  lemma {:induction false} InsertKeepsSorted<T(!new)>(x: T, s: seq<T>, leq: (T, T) -> bool)
    requires TotalPreorder(leq) && SortedBy(leq, s)
    ensures SortedBy(leq, Insert(x, s, leq))
  {
    if s != [] && !leq(x, s[0]) {
      var rest := Insert(x, s[1..], leq);
      InsertKeepsSorted(x, s[1..], leq);
      SamePermutation(rest, s[1..] + [x]);
      forall j | 0 <= j < |rest| ensures leq(s[0], rest[j]) {
        assert rest[j] in s[1..] + [x];
      }
    }
  }

  lemma {:induction false} SortSorts<T(!new)>(s: seq<T>, leq: (T, T) -> bool)
    requires TotalPreorder(leq)
    ensures SortedBy(leq, Sort(s, leq))
  {
    if s != [] {
      SortSorts(s[1..], leq);
      InsertKeepsSorted(s[0], Sort(s[1..], leq), leq);
    }
  }

  ghost predicate NoRepeats<T>(s: seq<T>) {
    forall i, j :: 0 <= i < j < |s| ==> s[i] != s[j]
  }

  /** How many elements satisfy p. */
  function Count<T>(s: seq<T>, p: T -> bool): nat {
    if s == [] then 0 else Count(s[..|s|-1], p) + (if p(s[|s|-1]) then 1 else 0)
  }

  lemma {:induction false} CountConcat<T>(a: seq<T>, b: seq<T>, p: T -> bool)
    ensures Count(a + b, p) == Count(a, p) + Count(b, p)
  {
    if b == [] {
      assert a + b == a;
    } else {
      CountConcat(a, b[..|b|-1], p);
      assert (a + b)[..|a+b|-1] == a + b[..|b|-1];
    }
  }

  /** Counting does not depend on the order. */
  lemma {:induction false} CountPermutation<T>(a: seq<T>, b: seq<T>, p: T -> bool)
    requires multiset(a) == multiset(b)
    ensures Count(a, p) == Count(b, p)
    decreases |a|
  {
    SamePermutation(a, b);
    if a != [] {
      var x, front := a[|a|-1], a[..|a|-1];
      assert a == front + [x];
      assert x in b;
      var k :| 0 <= k < |b| && b[k] == x;
      assert b == b[..k] + [x] + b[k+1..];
      assert multiset(front) == multiset(a) - multiset{x};
      assert multiset(b[..k] + b[k+1..]) == multiset(b) - multiset{x};
      CountPermutation(front, b[..k] + b[k+1..], p);
      CountConcat(b[..k] + [x], b[k+1..], p);
      CountConcat(b[..k], [x], p);
      CountConcat(b[..k], b[k+1..], p);
    }
  }

  lemma {:induction false} CountZero<T>(s: seq<T>, p: T -> bool)
    ensures Count(s, p) == 0 <==> forall x :: x in s ==> !p(x)
  {
    if s != [] {
      CountZero(s[..|s|-1], p);
      assert s == s[..|s|-1] + [s[|s|-1]];
    }
  }

  function Filter<T(!new)>(s: seq<T>, p: T -> bool): (r: seq<T>)
    ensures forall x :: x in r <==> x in s && p(x)
    ensures |r| == Count(s, p)
  {
    if s == [] then []
    else
      assert s == s[..|s|-1] + [s[|s|-1]];
      Filter(s[..|s|-1], p) + (if p(s[|s|-1]) then [s[|s|-1]] else [])
  }

  lemma {:induction false} FilterKeepsSorted<T(!new)>(s: seq<T>, p: T -> bool, leq: (T, T) -> bool)
    requires SortedBy(leq, s)
    ensures SortedBy(leq, Filter(s, p))
  {
    if s != [] {
      var front, x := s[..|s|-1], s[|s|-1];
      FilterKeepsSorted(front, p, leq);
      forall i | 0 <= i < |Filter(front, p)| ensures leq(Filter(front, p)[i], x) {
        assert Filter(front, p)[i] in front;
      }
    }
  }

  lemma {:induction false} FilterStep<T(!new)>(s: seq<T>, n: nat, p: T -> bool)
    requires n < |s|
    ensures Filter(s[..n+1], p) == if p(s[n]) then Filter(s[..n], p) + [s[n]] else Filter(s[..n], p)
  {
    assert s[..n+1][..n] == s[..n];
  }

  ghost predicate Separates<T>(leq: (T, T) -> bool, s: seq<T>) {
    forall x, y :: x in s && y in s && leq(x, y) && leq(y, x) ==> x == y
  }

  lemma {:induction false} SortedHeads<T>(a: seq<T>, b: seq<T>, leq: (T, T) -> bool)
    requires SortedBy(leq, a) && SortedBy(leq, b) && multiset(a) == multiset(b) && Separates(leq, a) && a != []
    ensures b != [] && a[0] == b[0]
  {
    SamePermutation(a, b);
    assert a[0] in b && b[0] in a;
    var i :| 0 <= i < |b| && b[i] == a[0];
    var j :| 0 <= j < |a| && a[j] == b[0];
    assert i > 0 ==> leq(b[0], b[i]);
    assert j > 0 ==> leq(a[0], a[j]);
  }

  /** Two sorted arrangements of the same elements agree when the order separates them. */
  lemma {:induction false} SortedPermutationUnique<T>(a: seq<T>, b: seq<T>, leq: (T, T) -> bool)
    requires SortedBy(leq, a) && SortedBy(leq, b) && multiset(a) == multiset(b) && Separates(leq, a)
    ensures a == b
    decreases |a|
  {
    if a != [] {
      SortedHeads(a, b, leq);
      assert a == [a[0]] + a[1..] && b == [b[0]] + b[1..];
      assert multiset(a[1..]) == multiset(a) - multiset{a[0]};
      assert multiset(b[1..]) == multiset(b) - multiset{b[0]};
      SortedPermutationUnique(a[1..], b[1..], leq);
    } else {
      SamePermutation(a, b);
    }
  }

  lemma {:induction false} DistinctMultiplicity<T>(s: seq<T>, x: T)
    requires NoRepeats(s)
    ensures multiset(s)[x] == if x in s then 1 else 0
  {
    if s != [] {
      var front := s[..|s|-1];
      assert s == front + [s[|s|-1]];
      DistinctMultiplicity(front, x);
    }
  }

  lemma {:induction false} SameElementsSameMultiset<T>(a: seq<T>, b: seq<T>)
    requires NoRepeats(a) && NoRepeats(b) && (forall x :: x in a <==> x in b)
    ensures multiset(a) == multiset(b)
  {
    forall x ensures multiset(a)[x] == multiset(b)[x] {
      DistinctMultiplicity(a, x);
      DistinctMultiplicity(b, x);
    }
  }

  /** A list without repetitions is as long as the set of its elements is large. */
  lemma {:induction false} DistinctSize<T>(s: seq<T>, t: set<T>)
    requires NoRepeats(s) && forall x :: x in s <==> x in t
    ensures |t| == |s|
  {
    if s == [] {
      assert t == {};
    } else {
      var x, front := s[|s|-1], s[..|s|-1];
      assert s == front + [x];
      DistinctSize(front, t - {x});
    }
  }

  /** Equal concatenations with equally long ends have equal parts. */
  lemma {:induction false} SplitEqual<T>(a: seq<T>, b: seq<T>, x: seq<T>, y: seq<T>)
    requires a + x == b + y && |x| == |y|
    ensures a == b && x == y
  {
    assert |a| == |b|;
    assert a == (a + x)[..|a|] == (b + y)[..|b|] == b;
    assert x == (a + x)[|a|..] == (b + y)[|b|..] == y;
  }
}
