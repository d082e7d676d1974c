/** Detecting sequence numbers that go backwards within one sequence key. */
module LedgerOrder {

  datatype Entry = Entry(requestID: string, key: string, sequence: nat)
  datatype Stage = ClientResponse | InternalLedger
  datatype Reordered = Reordered(requestID: string, stage: Stage, previous: nat, sequence: nat)

  /** An earlier entry with the same key has a larger sequence. */
  ghost predicate Overtaken(e: seq<Entry>, i: nat)
    requires i < |e|
  {
    exists j :: 0 <= j < i && e[j].key == e[i].key && e[j].sequence > e[i].sequence
  }

  ghost predicate Monotone(e: seq<Entry>) {
    forall i, j :: 0 <= i < j < |e| && e[i].key == e[j].key ==> e[i].sequence <= e[j].sequence
  }

  /** The largest sequence with that key among the first n entries, 0 if there is none. */
  function MaxBefore(e: seq<Entry>, n: nat, key: string): nat
    requires n <= |e|
  {
    if n == 0 then 0
    else
      var before := MaxBefore(e, n - 1, key);
      if e[n-1].key == key && e[n-1].sequence > before then e[n-1].sequence else before
  }

  /** The reports for exactly the overtaken entries among the first n. */
  ghost function Reorders(e: seq<Entry>, stage: Stage, n: nat): seq<Reordered>
    requires n <= |e|
  {
    if n == 0 then []
    else
      Reorders(e, stage, n - 1) +
      (if Overtaken(e, n - 1)
       then [Reordered(e[n-1].requestID, stage, MaxBefore(e, n - 1, e[n-1].key), e[n-1].sequence)] else [])
  }

  ghost function ReorderOf(e: seq<Entry>, stage: Stage, i: nat): Reordered
    requires i < |e|
  {
    Reordered(e[i].requestID, stage, MaxBefore(e, i, e[i].key), e[i].sequence)
  }

  /** The reorders are those of the overtaken entries, and no others. */
  lemma {:induction false} ReordersMembers(e: seq<Entry>, stage: Stage, n: nat, x: Reordered)
    requires n <= |e|
    ensures x in Reorders(e, stage, n) <==> exists i: nat :: i < n && Overtaken(e, i) && x == ReorderOf(e, stage, i)
  {
    hide Overtaken;
    if n > 0 {
      ReordersMembers(e, stage, n - 1, x);
      if Overtaken(e, n - 1) && x == ReorderOf(e, stage, n - 1) {
        assert x in Reorders(e, stage, n);
      }
    }
  }

  lemma {:induction false} MaxBeforeBounds(e: seq<Entry>, n: nat, key: string)
    requires n <= |e|
    ensures forall j :: 0 <= j < n && e[j].key == key ==> e[j].sequence <= MaxBefore(e, n, key)
    ensures MaxBefore(e, n, key) == 0 || exists j ::
        0 <= j < n && e[j].key == key && e[j].sequence == MaxBefore(e, n, key)
  {
    if n > 0 { MaxBeforeBounds(e, n - 1, key); }
  }

  /** Comparing with the running maximum decides whether the entry is overtaken. */
  lemma {:induction false} OvertakenByMax(e: seq<Entry>, i: nat)
    requires i < |e|
    ensures Overtaken(e, i) <==> e[i].sequence < MaxBefore(e, i, e[i].key)
  {
    MaxBeforeBounds(e, i, e[i].key);
  }

  lemma {:induction false} ReordersEmpty(e: seq<Entry>, stage: Stage, n: nat)
    requires n <= |e|
    ensures Reorders(e, stage, n) == [] <==> forall i: nat :: i < n ==> !Overtaken(e, i)
  {
    if n > 0 { ReordersEmpty(e, stage, n - 1); }
  }

  lemma {:induction false} NoReorderIffMonotone(e: seq<Entry>, stage: Stage)
    ensures Reorders(e, stage, |e|) == [] <==> Monotone(e)
  {
    ReordersEmpty(e, stage, |e|);
    if Monotone(e) {
      forall i: nat | i < |e| ensures !Overtaken(e, i) {}
    } else {
      var i, j :| 0 <= i < j < |e| && e[i].key == e[j].key && e[i].sequence > e[j].sequence;
      assert Overtaken(e, j);
    }
  }

  ghost predicate Maxima(e: seq<Entry>, n: nat, m: map<string, nat>)
    requires n <= |e|
  {
    forall key :: MaxBefore(e, n, key) == if key in m then m[key] else 0
  }

  /** One pass with a running maximum per key; a report does not raise the maximum. */
  method ScanOrder(e: seq<Entry>, stage: Stage) returns (reordered: seq<Reordered>)
    ensures reordered == Reorders(e, stage, |e|)
    ensures reordered == [] <==> Monotone(e)
  {
    reordered := [];
    var maxima: map<string, nat> := map[];
    for n := 0 to |e|
      invariant reordered == Reorders(e, stage, n)
      invariant Maxima(e, n, maxima)
    {
      OvertakenByMax(e, n);
      var previous := if e[n].key in maxima then maxima[e[n].key] else 0;
      if e[n].sequence < previous {
        reordered := reordered + [Reordered(e[n].requestID, stage, previous, e[n].sequence)];
      } else {
        maxima := maxima[e[n].key := e[n].sequence];
      }
    }
    NoReorderIffMonotone(e, stage);
  }
}
