/** Firewall chains as rule lists, and what inserting and deleting partition rules does to them. */
module FirewallRules {
  datatype Binary = Iptables | Ip6tables

  datatype Chain = Output | Input

  datatype Key = Key(binary: Binary, chain: Chain)

  /** A line of a chain: a partition's DROP, or anything else. */
  datatype Entry = Drop(toward: bool, prefix: string, comment: string) | Foreign(text: string)

  datatype Prefix = Prefix(text: string, is6: bool)

  datatype Rule = Rule(key: Key, entry: Entry)

  /** The chains of one container. */
  datatype Tables = Tables(output: seq<Entry>, input: seq<Entry>, output6: seq<Entry>, input6: seq<Entry>)
  {
    function At(k: Key): seq<Entry> {
      match k
      case Key(Iptables, Output) => output
      case Key(Iptables, Input) => input
      case Key(Ip6tables, Output) => output6
      case Key(Ip6tables, Input) => input6
    }

    function With(k: Key, s: seq<Entry>): (t: Tables)
      ensures t.At(k) == s && forall other | other != k :: t.At(other) == At(other)
    {
      match k
      case Key(Iptables, Output) => this.(output := s)
      case Key(Iptables, Input) => this.(input := s)
      case Key(Ip6tables, Output) => this.(output6 := s)
      case Key(Ip6tables, Input) => this.(input6 := s)
    }
  }

  lemma {:induction false} SameTables(a: Tables, b: Tables)
    requires forall k :: a.At(k) == b.At(k)
    ensures a == b
  {
    assert a.At(Key(Iptables, Output)) == b.At(Key(Iptables, Output)) &&
        a.At(Key(Iptables, Input)) == b.At(Key(Iptables, Input));
    assert a.At(Key(Ip6tables, Output)) == b.At(Key(Ip6tables, Output)) &&
        a.At(Key(Ip6tables, Input)) == b.At(Key(Ip6tables, Input));
  }

  // ---- one chain ----------------------------------------------------------------------------------------

  /** Deletes the first line equal to e, if there is one. */
  function RemoveFirst(s: seq<Entry>, e: Entry): seq<Entry> {
    if s == [] then [] else if s[0] == e then s[1..] else [s[0]] + RemoveFirst(s[1..], e)
  }

  /** One deletion for each element of es, from the last to the first. */
  function RemoveEach(s: seq<Entry>, es: seq<Entry>): seq<Entry>
    decreases |es|
  {
    if es == [] then s else RemoveEach(RemoveFirst(s, es[|es| - 1]), es[..|es| - 1])
  }

  /** The lines that are not among es, in their order. */
  function Without(s: seq<Entry>, es: seq<Entry>): seq<Entry> {
    if s == [] then [] else (if s[0] in es then [] else [s[0]]) + Without(s[1..], es)
  }

  function Reversed(s: seq<Entry>): seq<Entry> { if s == [] then [] else Reversed(s[1..]) + [s[0]] }

  lemma {:induction false} HeadCounts(s: seq<Entry>, x: Entry)
    requires s != []
    ensures multiset(s)[x] == multiset(s[1..])[x] + if s[0] == x then 1 else 0
  {
    assert s == [s[0]] + s[1..];
  }

  lemma {:induction false} LastCounts(s: seq<Entry>, x: Entry)
    requires s != []
    ensures multiset(s)[x] == multiset(s[..|s| - 1])[x] + if s[|s| - 1] == x then 1 else 0
  {
    assert s == s[..|s| - 1] + [s[|s| - 1]];
  }

  lemma {:induction false} RemoveFirstCounts(s: seq<Entry>, e: Entry, x: Entry)
    ensures multiset(RemoveFirst(s, e))[x] == if x == e && x in s then multiset(s)[x] - 1 else multiset(s)[x]
  {
    if s != [] {
      HeadCounts(s, x);
      if s[0] != e {
        RemoveFirstCounts(s[1..], e, x);
        var r := RemoveFirst(s, e);
        assert r[1..] == RemoveFirst(s[1..], e);
        HeadCounts(r, x);
      }
    }
  }

  lemma {:induction false} RemoveEachCounts(s: seq<Entry>, es: seq<Entry>, x: Entry)
    ensures multiset(RemoveEach(s, es))[x] == if multiset(s)[x] <= multiset(es)[x]
        then 0
        else multiset(s)[x] - multiset(es)[x]
    decreases |es|
  {
    if es != [] {
      LastCounts(es, x);
      RemoveFirstCounts(s, es[|es| - 1], x);
      RemoveEachCounts(RemoveFirst(s, es[|es| - 1]), es[..|es| - 1], x);
    }
  }

  lemma {:induction false} WithoutHas(s: seq<Entry>, es: seq<Entry>, x: Entry)
    ensures x in Without(s, es) <==> x in s && x !in es
  {
    if s != [] { WithoutHas(s[1..], es, x); }
  }

  /** Deleting a line that is to go anyway leaves the other lines as they were. */
  lemma {:induction false} WithoutRemoveFirst(s: seq<Entry>, e: Entry, es: seq<Entry>)
    requires e in es
    ensures Without(RemoveFirst(s, e), es) == Without(s, es)
  {
    if s != [] && s[0] != e {
      WithoutRemoveFirst(s[1..], e, es);
      assert RemoveFirst(s, e)[1..] == RemoveFirst(s[1..], e);
    }
  }

  lemma {:induction false} WithoutNothing(s: seq<Entry>, es: seq<Entry>)
    requires forall x | x in s :: x !in es
    ensures Without(s, es) == s
  {
    if s != [] { WithoutNothing(s[1..], es); }
  }

  lemma {:induction false} WithoutConcat(a: seq<Entry>, b: seq<Entry>, es: seq<Entry>)
    ensures Without(a + b, es) == Without(a, es) + Without(b, es)
  {
    if a == [] {
      assert a + b == b;
    } else {
      assert (a + b)[1..] == a[1..] + b;
      WithoutConcat(a[1..], b, es);
    }
  }

  lemma {:induction false} WithoutAll(s: seq<Entry>, es: seq<Entry>)
    requires forall x | x in s :: x in es
    ensures Without(s, es) == []
  {
    if s != [] { WithoutAll(s[1..], es); }
  }

  /** The lines that stay are never touched, whatever the counts. */
  lemma {:induction false} OthersStay(s: seq<Entry>, es: seq<Entry>, all: seq<Entry>)
    requires forall e | e in es :: e in all
    ensures Without(RemoveEach(s, es), all) == Without(s, all)
    decreases |es|
  {
    if es != [] {
      WithoutRemoveFirst(s, es[|es| - 1], all);
      OthersStay(RemoveFirst(s, es[|es| - 1]), es[..|es| - 1], all);
    }
  }

  /** No chain holds more copies of a partition rule than there are deletions for it. */
  ghost predicate Covered(s: seq<Entry>, es: seq<Entry>) { forall e | e in es :: multiset(s)[e] <= multiset(es)[e] }

  /** The deletions leave exactly the other lines if and only if they cover every copy. */
  lemma {:induction false} RemoveEachExact(s: seq<Entry>, es: seq<Entry>)
    ensures RemoveEach(s, es) == Without(s, es) <==> Covered(s, es)
  {
    OthersStay(s, es, es);
    if Covered(s, es) {
      forall x | x in RemoveEach(s, es) ensures x !in es {
        RemoveEachCounts(s, es, x);
      }
      WithoutNothing(RemoveEach(s, es), es);
    } else {
      var e :| e in es && multiset(s)[e] > multiset(es)[e];
      RemoveEachCounts(s, es, e);
      WithoutHas(s, es, e);
    }
  }

  /** A second round of deletions changes nothing if and only if the first covered every copy. */
  lemma {:induction false} RemoveEachTwice(s: seq<Entry>, es: seq<Entry>)
    ensures RemoveEach(RemoveEach(s, es), es) == RemoveEach(s, es) <==> Covered(s, es)
  {
    var once := RemoveEach(s, es);
    RemoveEachExact(once, es);
    forall e | e in es ensures multiset(once)[e] == if multiset(s)[e] <= multiset(es)[e]
        then 0
        else multiset(s)[e] - multiset(es)[e] {
      RemoveEachCounts(s, es, e);
    }
    if Covered(s, es) {
      RemoveEachExact(s, es);
      assert Covered(once, es);
      OthersStay(s, es, es);
    } else {
      var e :| e in es && multiset(s)[e] > multiset(es)[e];
      RemoveEachCounts(once, es, e);
    }
  }
}
