/** Applying a network partition to a container's firewall, completely or in part, and taking it back. */
module Partition {
  import opened FirewallRules

  // ---- the rules of a partition -------------------------------------------------------------------------

  function RuleFor(comment: string, prefix: Prefix, chain: Chain): Rule {
    Rule(Key(if prefix.is6 then Ip6tables else Iptables, chain), Drop(chain.Output?, prefix.text, comment))
  }

  function Comment(runID: string, fault: string): string { "mm36:" + runID + ":" + fault }

  /** Both directions of every prefix of every peer network, in order; peers that share a prefix repeat it. */
  method PartitionRules(runID: string, fault: string, peers: seq<seq<Prefix>>) returns (rules: seq<Rule>)
    ensures forall r :: r in rules <==>
        exists i: nat, j: nat, c :: i < |peers| && j < |peers[i]| && r == RuleFor(Comment(runID, fault), peers[i][j], c)
    ensures |rules| == 2 * Total(peers)
  {
    rules := [];
    var comment := Comment(runID, fault);
    for i := 0 to |peers|
      invariant forall r :: r in rules <==> RuleUpTo(r, comment, peers, i, 0)
      invariant |rules| == 2 * Total(peers[..i])
    {
      assert peers[..i + 1][..i] == peers[..i];
      for j := 0 to |peers[i]|
        invariant forall r :: r in rules <==> RuleUpTo(r, comment, peers, i, j)
        invariant |rules| == 2 * Total(peers[..i]) + 2 * j
      {
        RuleNext(comment, peers, i, j);
        rules := rules + [RuleFor(comment, peers[i][j], Output), RuleFor(comment, peers[i][j], Input)];
      }
      RuleRow(comment, peers, i);
    }
    assert peers[..|peers|] == peers;
  }

  function Total(peers: seq<seq<Prefix>>): nat {
    if peers == [] then 0 else Total(peers[..|peers| - 1]) + |peers[|peers| - 1]|
  }

  /** r stands for a prefix of an earlier peer, or for one of the first j prefixes of peer i. */
  ghost predicate RuleUpTo(r: Rule, comment: string, peers: seq<seq<Prefix>>, i: nat, j: nat)
    requires i <= |peers| && (j == 0 || (i < |peers| && j <= |peers[i]|))
  {
    exists a: nat, b: nat, c ::
        a < |peers| && b < |peers[a]| && (a < i || (a == i && b < j)) && r == RuleFor(comment, peers[a][b], c)
  }

  lemma {:induction false} RuleNext(comment: string, peers: seq<seq<Prefix>>, i: nat, j: nat)
    requires i < |peers| && j < |peers[i]|
    ensures forall r :: RuleUpTo(r, comment, peers, i, j + 1) <==>
      RuleUpTo(r, comment, peers, i, j) || r == RuleFor(comment, peers[i][j], Output) ||
          r == RuleFor(comment, peers[i][j], Input)
  {
    forall r ensures RuleUpTo(r, comment, peers, i, j + 1) <==>
      RuleUpTo(r, comment, peers, i, j) || r == RuleFor(comment, peers[i][j], Output) ||
          r == RuleFor(comment, peers[i][j], Input)
    {
      if RuleUpTo(r, comment, peers, i, j + 1) {
        var a: nat, b: nat, c :| a < |peers| && b < |peers[a]| && (a < i || (a == i && b < j + 1)) &&
            r == RuleFor(comment, peers[a][b], c);
        if a == i && b == j {
          assert c.Output? || c.Input?;
        }
      }
    }
  }

  lemma {:induction false} RuleRow(comment: string, peers: seq<seq<Prefix>>, i: nat)
    requires i < |peers|
    ensures forall r :: RuleUpTo(r, comment, peers, i + 1, 0) <==> RuleUpTo(r, comment, peers, i, |peers[i]|)
  {}

  // ---- specification of the commands ----------------------------------------------------------------------

  function EntriesAt(rules: seq<Rule>, k: Key): seq<Entry> {
    if rules == [] then []
    else if rules[|rules| - 1].key == k then EntriesAt(rules[..|rules| - 1], k) + [rules[|rules| - 1].entry]
    else EntriesAt(rules[..|rules| - 1], k)
  }

  predicate Has(t: Tables, r: Rule) { r.entry in t.At(r.key) }

  predicate Absent(t: Tables, rules: seq<Rule>) { forall r | r in rules :: !Has(t, r) }

  function Inserted(t: Tables, r: Rule): Tables { t.With(r.key, [r.entry] + t.At(r.key)) }

  function Deleted(t: Tables, r: Rule): Tables { t.With(r.key, RemoveFirst(t.At(r.key), r.entry)) }

  function InsertedAll(t: Tables, rules: seq<Rule>): Tables {
    if rules == [] then t else Inserted(InsertedAll(t, rules[..|rules| - 1]), rules[|rules| - 1])
  }

  function DeletedAll(t: Tables, rules: seq<Rule>): Tables
    decreases |rules|
  {
    if rules == [] then t else DeletedAll(Deleted(t, rules[|rules| - 1]), rules[..|rules| - 1])
  }

  function ClearedChain(t: Tables, rules: seq<Rule>, k: Key): seq<Entry> { Without(t.At(k), EntriesAt(rules, k)) }

  /** Every chain without the lines of these rules. */
  function Cleared(t: Tables, rules: seq<Rule>): Tables {
    Tables(ClearedChain(t, rules, Key(Iptables, Output)), ClearedChain(t, rules, Key(Iptables, Input)),
           ClearedChain(t, rules, Key(Ip6tables, Output)), ClearedChain(t, rules, Key(Ip6tables, Input)))
  }

  lemma {:induction false} ClearedAt(t: Tables, rules: seq<Rule>, k: Key)
    ensures Cleared(t, rules).At(k) == Without(t.At(k), EntriesAt(rules, k))
  {
    hide Without, EntriesAt;
    match k
    case Key(Iptables, Output) =>
    case Key(Iptables, Input) =>
    case Key(Ip6tables, Output) =>
    case Key(Ip6tables, Input) =>
  }

  lemma {:induction false} EntriesHave(rules: seq<Rule>, k: Key, e: Entry)
    ensures e in EntriesAt(rules, k) <==> Rule(k, e) in rules
  {
    if rules != [] {
      EntriesHave(rules[..|rules| - 1], k, e);
      assert rules == rules[..|rules| - 1] + [rules[|rules| - 1]];
    }
  }

  lemma {:induction false} ReversedSnoc(s: seq<Entry>, e: Entry)
    ensures Reversed(s + [e]) == [e] + Reversed(s)
  {
    if s != [] {
      ReversedSnoc(s[1..], e);
      assert (s + [e])[1..] == s[1..] + [e];
    }
  }

  lemma {:induction false} ReversedCounts(s: seq<Entry>)
    ensures multiset(Reversed(s)) == multiset(s)
  {
    if s != [] {
      ReversedCounts(s[1..]);
      assert s == [s[0]] + s[1..];
    }
  }

  /** The inserted lines stand before everything that was there, the last inserted first. */
  lemma {:induction false} InsertedAt(t: Tables, rules: seq<Rule>, k: Key)
    ensures InsertedAll(t, rules).At(k) == Reversed(EntriesAt(rules, k)) + t.At(k)
  {
    if rules != [] {
      var init, last := rules[..|rules| - 1], rules[|rules| - 1];
      InsertedAt(t, init, k);
      ReversedSnoc(EntriesAt(init, k), last.entry);
    }
  }

  lemma {:induction false} DeletedAt(t: Tables, rules: seq<Rule>, k: Key)
    ensures DeletedAll(t, rules).At(k) == RemoveEach(t.At(k), EntriesAt(rules, k))
    decreases |rules|
  {
    if rules != [] {
      var init, last := rules[..|rules| - 1], rules[|rules| - 1];
      DeletedAt(Deleted(t, last), init, k);
      if last.key == k {
        assert (EntriesAt(init, k) + [last.entry])[..|EntriesAt(init, k)|] == EntriesAt(init, k);
      }
    }
  }

  ghost predicate AllCovered(t: Tables, rules: seq<Rule>) { forall k :: Covered(t.At(k), EntriesAt(rules, k)) }

  /**
   * A restore leaves exactly the foreign lines, in their order, if and only if nobody else added copies of its rules.
   */
  lemma {:induction false} RestoreExact(t: Tables, rules: seq<Rule>)
    ensures DeletedAll(t, rules) == Cleared(t, rules) <==> AllCovered(t, rules)
  {
    hide Covered, Cleared, DeletedAll, EntriesAt, Without, RemoveEach;
    forall k ensures DeletedAll(t, rules).At(k) == Cleared(t, rules).At(k) <==> Covered(t.At(k), EntriesAt(rules, k)) {
      ClearedAt(t, rules, k);
      DeletedAt(t, rules, k);
      RemoveEachExact(t.At(k), EntriesAt(rules, k));
    }
    if AllCovered(t, rules) {
      SameTables(DeletedAll(t, rules), Cleared(t, rules));
    }
  }

  /** A second restore changes nothing if and only if the first one covered every copy. */
  lemma {:induction false} RestoreTwice(t: Tables, rules: seq<Rule>)
    ensures DeletedAll(DeletedAll(t, rules), rules) == DeletedAll(t, rules) <==> AllCovered(t, rules)
  {
    hide Covered, DeletedAll, EntriesAt, RemoveEach;
    var once := DeletedAll(t, rules);
    forall k ensures DeletedAll(once, rules).At(k) == once.At(k) <==> Covered(t.At(k), EntriesAt(rules, k)) {
      DeletedAt(t, rules, k);
      DeletedAt(once, rules, k);
      RemoveEachTwice(t.At(k), EntriesAt(rules, k));
    }
    if AllCovered(t, rules) {
      SameTables(DeletedAll(once, rules), once);
    }
  }

  const COPY := Rule(Key(Iptables, Output), Drop(true, "10.0.0.0/8", "mm36:run:fault"))
  const TWO_COPIES := Tables([COPY.entry, COPY.entry], [], [], [])

  /** With a second copy that somebody else added, one restore leaves a copy behind and the next still deletes. */
  lemma {:induction false} CopiesSurvive()
    ensures DeletedAll(TWO_COPIES, [COPY]) != Cleared(TWO_COPIES, [COPY])
    ensures DeletedAll(DeletedAll(TWO_COPIES, [COPY]), [COPY]) != DeletedAll(TWO_COPIES, [COPY])
  {
    RestoreExact(TWO_COPIES, [COPY]);
    RestoreTwice(TWO_COPIES, [COPY]);
    EntriesHave([COPY], COPY.key, COPY.entry);
    assert [COPY][..0] == [];
    assert EntriesAt([COPY], COPY.key) == [COPY.entry];
    assert multiset(TWO_COPIES.At(COPY.key))[COPY.entry] == 2;
    assert !Covered(TWO_COPIES.At(COPY.key), EntriesAt([COPY], COPY.key));
  }

  lemma {:induction false} AppliedCovered(t: Tables, applied: seq<Rule>)
    requires Absent(t, applied)
    ensures AllCovered(InsertedAll(t, applied), applied)
  {
    forall k ensures Covered(InsertedAll(t, applied).At(k), EntriesAt(applied, k)) {
      InsertedAt(t, applied, k);
      ReversedCounts(EntriesAt(applied, k));
      forall e | e in EntriesAt(applied,
          k) ensures multiset(InsertedAll(t, applied).At(k))[e] <= multiset(EntriesAt(applied, k))[e] {
        EntriesHave(applied, k, e);
        assert !Has(t, Rule(k, e));
      }
    }
  }

  lemma {:induction false} ClearedApplied(t: Tables, applied: seq<Rule>, k: Key)
    requires Absent(t, applied)
    ensures Cleared(InsertedAll(t, applied), applied).At(k) == t.At(k)
  {
    hide Cleared, InsertedAll, EntriesAt, Reversed, Without;
    var es := EntriesAt(applied, k);
    ClearedAt(InsertedAll(t, applied), applied, k);
    InsertedAt(t, applied, k);
    WithoutConcat(Reversed(es), t.At(k), es);
    ReversedCounts(es);
    forall x | x in Reversed(es) ensures x in es { assert x in multiset(Reversed(es)); }
    WithoutAll(Reversed(es), es);
    forall x | x in t.At(k) ensures x !in es {
      EntriesHave(applied, k, x);
      assert Rule(k, x) in applied ==> !Has(t, Rule(k, x));
    }
    WithoutNothing(t.At(k), es);
  }

  /** Applying any prefix of the rules to chains that hold none of them, then restoring, gives the chains back. */
  lemma {:induction false} RestoreUndoesApply(t: Tables, applied: seq<Rule>)
    requires Absent(t, applied)
    ensures DeletedAll(InsertedAll(t, applied), applied) == t
  {
    hide Absent, Cleared, DeletedAll, InsertedAll, AllCovered;
    AppliedCovered(t, applied);
    RestoreExact(InsertedAll(t, applied), applied);
    forall k ensures Cleared(InsertedAll(t, applied), applied).At(k) == t.At(k) {
      ClearedApplied(t, applied, k);
    }
    SameTables(Cleared(InsertedAll(t, applied), applied), t);
  }

  /** What others may do to the chains meanwhile: anything that adds no copy of an applied rule. */
  ghost predicate NoCopiesAdded(before: Tables, after: Tables, rules: seq<Rule>) {
    forall r | r in rules :: multiset(after.At(r.key))[r.entry] <= multiset(before.At(r.key))[r.entry]
  }

  /** Lines that others inserted, moved or deleted in between stay as they are. */
  lemma {:induction false} ForeignSurvives(t: Tables, applied: seq<Rule>, between: Tables)
    requires Absent(t, applied) && NoCopiesAdded(InsertedAll(t, applied), between, applied)
    ensures DeletedAll(between, applied) == Cleared(between, applied)
  {
    AppliedCovered(t, applied);
    CoveredStays(InsertedAll(t, applied), between, applied);
    RestoreExact(between, applied);
  }

  lemma {:induction false} CoveredStays(before: Tables, after: Tables, rules: seq<Rule>)
    requires AllCovered(before, rules) && NoCopiesAdded(before, after, rules)
    ensures AllCovered(after, rules)
  {
    forall k ensures Covered(after.At(k), EntriesAt(rules, k)) {
      assert Covered(before.At(k), EntriesAt(rules, k));
      forall e | e in EntriesAt(rules, k) ensures multiset(after.At(k))[e] <= multiset(EntriesAt(rules, k))[e] {
        EntriesHave(rules, k, e);
        assert multiset(after.At(Rule(k, e).key))[Rule(k, e).entry] <= multiset(before.At(Rule(k, e).key))[Rule(k,
            e).entry];
      }
    }
  }

  /** After a restore in which some commands failed, a later complete one ends where one complete restore would have. */
  lemma {:induction false} RetryCompletes(before: Tables, after: Tables, rules: seq<Rule>)
    requires AllCovered(before, rules) && NoCopiesAdded(before, after, rules)
    requires Cleared(after, rules) == Cleared(before, rules)
    ensures DeletedAll(after, rules) == DeletedAll(before, rules)
  {
    CoveredStays(before, after, rules);
    RestoreExact(before, rules);
    RestoreExact(after, rules);
  }

  /** Once every rule is applied, each peer prefix is dropped both ways before any line that was there. */
  lemma {:induction false} PartitionBlocks(t: Tables, rules: seq<Rule>, r: Rule)
    requires r in rules
    ensures var chain, ours := InsertedAll(t, rules).At(r.key), |EntriesAt(rules, r.key)|;
      && ours <= |chain| && chain[ours..] == t.At(r.key)
      && exists n :: 0 <= n < ours && chain[n] == r.entry
  {
    hide InsertedAll, EntriesAt, Reversed;
    var es := EntriesAt(rules, r.key);
    EntriesHave(rules, r.key, r.entry);
    InsertedAt(t, rules, r.key);
    ReversedCounts(es);
    assert |Reversed(es)| == |multiset(Reversed(es))| == |es|;
    assert r.entry in multiset(Reversed(es));
    var n :| 0 <= n < |Reversed(es)| && Reversed(es)[n] == r.entry;
    assert InsertedAll(t, rules).At(r.key)[n] == r.entry;
  }

  // ---- the driver -----------------------------------------------------------------------------------------

  /** A container's firewall behind commands that may fail, and then have no effect. */
  class Driver {
    var tables: Tables
    /** Whether the commands are known never to fail. */
    const healthy: bool

    constructor (tables: Tables, healthy: bool)
      ensures this.tables == tables && this.healthy == healthy
    {
      this.tables, this.healthy := tables, healthy;
    }

    /** The exit code of a check: 0 when the rule exists, 1 when it does not, another one when the command failed. */
    method Check(r: Rule) returns (exit: int)
      ensures exit == 0 ==> Has(tables, r)
      ensures exit == 1 ==> !Has(tables, r)
      ensures healthy ==> exit == 0 || exit == 1
    {
      var fails := *;
      if fails && !healthy {
        exit := 125;
      } else {
        exit := if Has(tables, r) then 0 else 1;
      }
    }

    method Insert(r: Rule) returns (ok: bool)
      modifies this
      ensures tables == if ok then Inserted(old(tables), r) else old(tables)
      ensures healthy ==> ok
    {
      ok := *;
      ok := ok || healthy;
      if ok {
        tables := Inserted(tables, r);
      }
    }

    method Delete(r: Rule) returns (ok: bool)
      modifies this
      ensures tables == if ok then Deleted(old(tables), r) else old(tables)
      ensures healthy ==> ok
    {
      ok := *;
      ok := ok || healthy;
      if ok {
        tables := Deleted(tables, r);
      }
    }

    /** Refuses, changing nothing, unless every rule is known to be absent; then inserts them until one fails. */
    method Apply(rules: seq<Rule>) returns (ok: bool, restorable: bool, applied: seq<Rule>)
      modifies this
      ensures applied <= rules && tables == InsertedAll(old(tables), applied)
      ensures applied != [] || ok ==> Absent(old(tables), rules)
      ensures ok <==> applied == rules
      ensures healthy ==> (ok <==> Absent(old(tables), rules))
      ensures restorable <==> ok || applied != []
    {
      applied := [];
      ok, restorable := false, false;
      for i := 0 to |rules|
        invariant forall j | 0 <= j < i :: !Has(tables, rules[j])
        invariant tables == old(tables)
      {
        var exit := Check(rules[i]);
        if exit != 1 {
          return;
        }
      }
      for i := 0 to |rules|
        invariant applied == rules[..i] && tables == InsertedAll(old(tables), applied)
      {
        var done := Insert(rules[i]);
        if !done {
          restorable := applied != [];
          return;
        }
        assert rules[..i + 1][..i] == rules[..i];
        applied := applied + [rules[i]];
      }
      ok, restorable := true, true;
    }

    /** Tries to delete every rule once, from the last to the first. */
    method Restore(rules: seq<Rule>) returns (ok: bool)
      modifies this
      ensures ok ==> tables == DeletedAll(old(tables), rules)
      ensures healthy ==> ok
      ensures Cleared(tables, rules) == Cleared(old(tables), rules) && NoCopiesAdded(old(tables), tables, rules)
    {
      ok := true;
      var n := |rules|;
      assert rules[..n] == rules;
      while n > 0
        invariant 0 <= n <= |rules|
        invariant healthy ==> ok
        invariant ok ==> DeletedAll(tables, rules[..n]) == DeletedAll(old(tables), rules)
        invariant Cleared(tables, rules) == Cleared(old(tables), rules) && NoCopiesAdded(old(tables), tables, rules)
      {
        n := n - 1;
        assert rules[..n + 1][..n] == rules[..n];
        var exit := Check(rules[n]);
        if exit == 0 {
          DeleteKeeps(old(tables), tables, rules, rules[n]);
          var done := Delete(rules[n]);
          ok := ok && done;
        } else if exit == 1 {
          DeleteAbsent(tables, rules[n]);
        } else {
          ok := false;
        }
      }
    }
  }

  lemma {:induction false} RemoveAbsent(s: seq<Entry>, e: Entry)
    requires e !in s
    ensures RemoveFirst(s, e) == s
  {
    if s != [] { RemoveAbsent(s[1..], e); }
  }

  lemma {:induction false} DeleteAbsent(t: Tables, r: Rule)
    requires !Has(t, r)
    ensures Deleted(t, r) == t
  {
    RemoveAbsent(t.At(r.key), r.entry);
    SameTables(Deleted(t, r), t);
  }

  lemma {:induction false} DeleteKeeps(first: Tables, t: Tables, rules: seq<Rule>, r: Rule)
    requires r in rules && NoCopiesAdded(first, t, rules)
    ensures Cleared(Deleted(t, r), rules) == Cleared(t, rules) && NoCopiesAdded(first, Deleted(t, r), rules)
  {
    EntriesHave(rules, r.key, r.entry);
    WithoutRemoveFirst(t.At(r.key), r.entry, EntriesAt(rules, r.key));
    forall k ensures Cleared(Deleted(t, r), rules).At(k) == Cleared(t, rules).At(k) {
      ClearedAt(Deleted(t, r), rules, k);
      ClearedAt(t, rules, k);
    }
    SameTables(Cleared(Deleted(t, r), rules), Cleared(t, rules));
    forall q | q in rules ensures multiset(Deleted(t, r).At(q.key))[q.entry] <= multiset(first.At(q.key))[q.entry] {
      RemoveFirstCounts(t.At(r.key), r.entry, q.entry);
    }
  }
}
