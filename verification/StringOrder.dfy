/** The lexicographic order in which report lists of identifiers are sorted. */
module StringOrder {
  import opened Sorting

  predicate Leq(a: string, b: string) {
    a == [] || (b != [] && (a[0] < b[0] || (a[0] == b[0] && Leq(a[1..], b[1..]))))
  }

  lemma {:induction false} Total(a: string, b: string)
    ensures Leq(a, b) || Leq(b, a)
  {
    if a != [] && b != [] { Total(a[1..], b[1..]); }
  }

  lemma {:induction false} Transitive(a: string, b: string, c: string)
    requires Leq(a, b) && Leq(b, c)
    ensures Leq(a, c)
  {
    if a != [] && a[0] == b[0] == c[0] { Transitive(a[1..], b[1..], c[1..]); }
  }

  lemma {:induction false} AntiSymmetric(a: string, b: string)
    requires Leq(a, b) && Leq(b, a)
    ensures a == b
  {
    if a != [] {
      AntiSymmetric(a[1..], b[1..]);
      assert a == [a[0]] + a[1..] && b == [b[0]] + b[1..];
    }
  }

  lemma {:induction false} LeqOrder()
    ensures TotalPreorder(Leq)
  {
    forall a, b ensures Leq(a, b) || Leq(b, a) { Total(a, b); }
    forall a, b, c | Leq(a, b) && Leq(b, c) ensures Leq(a, c) { Transitive(a, b, c); }
  }

  lemma {:induction false} HeadIsElement(s: seq<string>)
    ensures s == [] || s[0] in s
  {}

  /** A sorted list without repetition is determined by its elements. */
  lemma {:induction false} SortedListUnique(a: seq<string>, b: seq<string>)
    requires SortedBy(Leq, a) && NoRepeats(a) && SortedBy(Leq, b) && NoRepeats(b)
    requires forall x :: x in a <==> x in b
    ensures a == b
    decreases |a|
  {
    if a == [] {
      HeadIsElement(b);
    } else {
      assert a[0] in b && b != [];
      assert b[0] in a;
      var i :| 0 <= i < |b| && b[i] == a[0];
      var j :| 0 <= j < |a| && a[j] == b[0];
      if i > 0 && j > 0 { AntiSymmetric(a[0], b[0]); }
      assert a[0] == b[0];
      forall x ensures x in a[1..] <==> x in b[1..] {
        assert x in a[1..] ==> x in a && x != a[0];
        assert x in b[1..] ==> x in b && x != b[0];
        assert x in a && x != a[0] ==> x in a[1..] by { assert a == [a[0]] + a[1..]; }
        assert x in b && x != b[0] ==> x in b[1..] by { assert b == [b[0]] + b[1..]; }
      }
      SortedListUnique(a[1..], b[1..]);
      assert a == [a[0]] + a[1..] && b == [b[0]] + b[1..];
    }
  }

  /** slices.Sort. */
  function SortStrings(s: seq<string>): (r: seq<string>)
    ensures multiset(r) == multiset(s) && SortedBy(Leq, r)
  {
    LeqOrder();
    SortSorts(s, Leq);
    Sort(s, Leq)
  }

  /** slices.Compact: drops each element equal to its predecessor. */
  function Compact(s: seq<string>): (r: seq<string>)
  {
    if |s| < 2 then s
    else if s[0] == s[1] then Compact(s[1..])
    else [s[0]] + Compact(s[1..])
  }

  lemma {:induction false} CompactSorted(s: seq<string>)
    requires SortedBy(Leq, s)
    ensures var r := Compact(s); SortedBy(Leq, r) && NoRepeats(r) && (forall x :: x in r <==> x in s)
  {
    if |s| >= 2 {
      var r := Compact(s[1..]);
      CompactSorted(s[1..]);
      assert s == [s[0]] + s[1..];
      if s[0] != s[1] {
        forall x | x in r ensures Leq(s[0], x) && s[0] != x {
          var i :| 0 < i < |s| && s[i] == x;
          if s[i] == s[0] && i > 1 { AntiSymmetric(s[0], s[1]); }
        }
      }
    }
  }
}
