/** The pre-check of an encoded tunnel frame: one header record and one payload record, and nothing else. */
module FrameScanner {
  import opened Wrappers
  import opened WireFormat

  const MAX_FRAME := 1048576
  const HEADER := 1
  const FIRST_PAYLOAD := 10

  datatype Outcome = Accepted | EmptyFrame | FrameTooLarge | Malformed | UnknownType

  predicate Known(number: nat, last: nat) { number == HEADER || FIRST_PAYLOAD <= number <= last }

  // ---- what a frame is ------------------------------------------------------------------------------------

  /** A length-delimited record: a tag, a length and that many bytes. */
  predicate RecordAt(b: seq<Byte>, number: nat, t: nat, l: nat) {
    t + l <= |b| && IsVarint(b[..t], 8 * number + BYTES) && IsVarint(b[t..t + l], |b| - t - l)
  }

  ghost predicate Record(b: seq<Byte>, number: nat) { exists t: nat, l: nat :: RecordAt(b, number, t, l) }

  ghost predicate Pair(b: seq<Byte>, cut: nat, first: nat, second: nat) {
    cut <= |b| && Record(b[..cut], first) && Record(b[cut..], second)
  }

  /** Two records, in either order: one header and one payload of the direction's range. */
  ghost predicate Frame(b: seq<Byte>, last: nat) {
    exists cut: nat, n: nat :: FIRST_PAYLOAD <= n <= last && (Pair(b, cut, HEADER, n) || Pair(b, cut, n, HEADER))
  }

  // ---- the scan -------------------------------------------------------------------------------------------

  /** The scanner's verdict on the rest of a frame after so many headers and payloads. */
  function Scan(b: seq<Byte>, headers: nat, payloads: nat, last: nat): Outcome
    decreases |b|
  {
    if b == [] then if headers == 1 && payloads == 1 then Accepted else UnknownType
    else
      var tag := ReadTag(b);
      if tag.None? then Malformed
      else
        var rest := b[tag.value.length..];
        var field := FieldLength(tag.value.number, tag.value.wire, rest, RECURSION_LIMIT);
        if field.None? then Malformed
        else if !Known(tag.value.number, last) then UnknownType
        else if tag.value.wire != BYTES then Malformed
        else if tag.value.number == HEADER then Scan(rest[field.value..], headers + 1, payloads, last)
        else Scan(rest[field.value..], headers, payloads + 1, last)
  }

  /** The first record of b and its length, if b starts with a length-delimited record. */
  function FirstRecord(b: seq<Byte>): (r: Option<Read>)
    ensures r.Some? ==> 1 <= r.value.value && 1 <= r.value.length <= |b|
  {
    var tag := ReadTag(b);
    if tag.None? || tag.value.wire != BYTES then None
    else
      var field := FieldLength(tag.value.number, BYTES, b[tag.value.length..], RECURSION_LIMIT);
      if field.None? then None else Some(Read(tag.value.number, tag.value.length + field.value))
  }

  function Headers(headers: nat, number: nat): nat { if number == HEADER then headers + 1 else headers }

  function Payloads(payloads: nat, number: nat): nat { if number == HEADER then payloads else payloads + 1 }

  lemma {:induction false} ScanStops(b: seq<Byte>, headers: nat, payloads: nat, last: nat)
    requires b != [] && (FirstRecord(b).None? || !Known(FirstRecord(b).value.value, last))
    ensures Scan(b, headers, payloads, last) != Accepted
  {
    hide FieldLength, ReadTag;
  }

  lemma {:induction false} ScanGoesOn(b: seq<Byte>, headers: nat, payloads: nat, last: nat)
    requires b != [] && FirstRecord(b).Some? && Known(FirstRecord(b).value.value, last)
    ensures var r := FirstRecord(b).value;
      Scan(b, headers, payloads, last) ==
          Scan(b[r.length..], Headers(headers, r.value), Payloads(payloads, r.value), last)
  {
    hide FieldLength, ReadTag;
    var tag := ReadTag(b).value;
    var field := FieldLength(tag.number, BYTES, b[tag.length..], RECURSION_LIMIT).value;
    assert b[tag.length..][field..] == b[tag.length + field..];
  }

  lemma {:induction false} ScanStep(b: seq<Byte>, headers: nat, payloads: nat, last: nat)
    requires b != []
    ensures Scan(b, headers, payloads, last) == Accepted <==>
      var r := FirstRecord(b);
      r.Some? && Known(r.value.value, last) &&
      Scan(b[r.value.length..], Headers(headers, r.value.value), Payloads(payloads, r.value.value), last) == Accepted
  {
    hide Scan, FirstRecord;
    if FirstRecord(b).Some? && Known(FirstRecord(b).value.value, last) {
      ScanGoesOn(b, headers, payloads, last);
    } else {
      ScanStops(b, headers, payloads, last);
    }
  }

  /** Three records are never accepted. */
  lemma {:induction false} TooMany(b: seq<Byte>, headers: nat, payloads: nat, last: nat)
    requires headers > 1 || payloads > 1
    ensures Scan(b, headers, payloads, last) != Accepted
    decreases |b|
  {
    hide FirstRecord;
    if b != [] {
      ScanStep(b, headers, payloads, last);
      var r := FirstRecord(b);
      if r.Some? && Known(r.value.value, last) {
        TooMany(b[r.value.length..], Headers(headers, r.value.value), Payloads(payloads, r.value.value), last);
      }
    }
  }

  // ---- records read and records written ---------------------------------------------------------------------

  lemma {:induction false} VarintExact(b: seq<Byte>, n: nat, v: nat)
    requires n <= |b|
    ensures IsVarint(b[..n], v) <==> Varint(b) == Some(Read(v, n))
  {
    if IsVarint(b[..n], v) {
      VarintPrefix(b[..n], 0, b[n..]);
      assert b[..n][..n] + b[n..] == b;
    }
    if Varint(b) == Some(Read(v, n)) {
      VarintPrefix(b, 0, []);
      assert b[..n] + [] == b[..n];
    }
  }

  lemma {:induction false} RecordIsFirst(b: seq<Byte>, cut: nat, number: nat, t: nat, l: nat)
    requires cut <= |b| && 1 <= number <= MAX_NUMBER && RecordAt(b[..cut], number, t, l)
    ensures FirstRecord(b) == Some(Read(number, cut))
  {
    hide Varint, IsVarint;
    assert b[..cut][..t] == b[..t] && b[..cut][t..t + l] == b[t..][..l];
    VarintExact(b, t, 8 * number + BYTES);
    VarintExact(b[t..], l, cut - t - l);
  }

  lemma {:induction false} FirstIsRecord(b: seq<Byte>)
    requires FirstRecord(b).Some?
    ensures Record(b[..FirstRecord(b).value.length], FirstRecord(b).value.value)
  {
    hide Varint, IsVarint;
    var cut, number := FirstRecord(b).value.length, FirstRecord(b).value.value;
    var t := ReadTag(b).value.length;
    var v := Varint(b[t..]);
    var l := v.value.length;
    VarintExact(b, t, 8 * number + BYTES);
    VarintExact(b[t..], l, v.value.value);
    assert b[..cut][..t] == b[..t] && b[..cut][t..t + l] == b[t..][..l];
    assert RecordAt(b[..cut], number, t, l);
  }

  lemma {:induction false} RecordReads(b: seq<Byte>, cut: nat, number: nat)
    requires cut <= |b| && 1 <= number <= MAX_NUMBER && Record(b[..cut], number)
    ensures FirstRecord(b) == Some(Read(number, cut))
  {
    hide RecordAt, FirstRecord;
    var t: nat, l: nat :| RecordAt(b[..cut], number, t, l);
    RecordIsFirst(b, cut, number, t, l);
  }

  // ---- acceptance -------------------------------------------------------------------------------------------

  /** A frame splits into its two records in one way only. */
  lemma {:induction false} SplitUnique(b: seq<Byte>, cut: nat, first: nat, second: nat, cut': nat, first': nat,
                                       second': nat)
    requires 1 <= first <= MAX_NUMBER && 1 <= second <= MAX_NUMBER && 1 <= first' <= MAX_NUMBER
    requires 1 <= second' <= MAX_NUMBER
    requires Pair(b, cut, first, second) && Pair(b, cut', first', second')
    ensures cut == cut' && first == first' && second == second'
  {
    hide Record, FirstRecord;
    RecordReads(b, cut, first);
    RecordReads(b, cut', first');
    assert b[cut..][..|b| - cut] == b[cut..];
    RecordReads(b[cut..], |b| - cut, second);
    RecordReads(b[cut..], |b| - cut, second');
  }

  lemma {:induction false} PairAccepted(b: seq<Byte>, cut: nat, first: nat, second: nat, last: nat)
    requires Pair(b, cut, first, second) && last <= MAX_NUMBER && Known(first, last) && Known(second, last)
    requires (first == HEADER) != (second == HEADER)
    ensures b != [] && Scan(b, 0, 0, last) == Accepted
  {
    hide Record, FirstRecord, Scan;
    var rest := b[cut..];
    RecordReads(b, cut, first);
    assert rest[..|rest|] == rest;
    RecordReads(rest, |rest|, second);
    ScanStep(b, 0, 0, last);
    ScanStep(rest, Headers(0, first), Payloads(0, first), last);
    assert rest[|rest|..] == [];
    ScanNone(last);
  }

  lemma {:induction false} ScanNone(last: nat)
    ensures forall h: nat, p: nat :: Scan([], h, p, last) == Accepted <==> h == 1 && p == 1
  {}

  lemma {:induction false} AcceptedPair(b: seq<Byte>, last: nat)
    requires b != [] && Scan(b, 0, 0, last) == Accepted
    ensures Frame(b, last)
  {
    hide Record, FirstRecord, Scan;
    ScanNone(last);
    ScanStep(b, 0, 0, last);
    FirstIsRecord(b);
    var first := FirstRecord(b).value;
    var rest := b[first.length..];
    var h, p := Headers(0, first.value), Payloads(0, first.value);
    ScanStep(rest, h, p, last);
    FirstIsRecord(rest);
    var second := FirstRecord(rest).value;
    OnlyTwo(rest, h, p, last);
    assert rest[..|rest|] == rest;
    assert Pair(b, first.length, first.value, second.value);
  }

  lemma {:induction false} OnlyTwo(rest: seq<Byte>, h: nat, p: nat, last: nat)
    requires rest != [] && h + p == 1 && Scan(rest, h, p, last) == Accepted
    ensures FirstRecord(rest).Some? && FirstRecord(rest).value.length == |rest|
    ensures Known(FirstRecord(rest).value.value, last)
    ensures FirstRecord(rest).value.value == HEADER <==> p == 1
  {
    hide FirstRecord, Scan;
    ScanNone(last);
    ScanStep(rest, h, p, last);
    var second := FirstRecord(rest).value;
    var h2, p2 := Headers(h, second.value), Payloads(p, second.value);
    var tail := rest[second.length..];
    if h2 > 1 || p2 > 1 {
      TooMany(tail, h2, p2, last);
    } else if tail != [] {
      ScanStep(tail, h2, p2, last);
      var third := FirstRecord(tail).value;
      TooMany(tail[third.length..], Headers(h2, third.value), Payloads(p2, third.value), last);
    }
  }

  /** The scan accepts exactly the frames. */
  lemma {:induction false} ScanExact(b: seq<Byte>, last: nat)
    requires last <= MAX_NUMBER
    ensures b != [] && Scan(b, 0, 0, last) == Accepted <==> Frame(b, last)
  {
    hide Scan, Pair;
    if b != [] && Scan(b, 0, 0, last) == Accepted {
      AcceptedPair(b, last);
    }
    if Frame(b, last) {
      var cut: nat, n: nat :| FIRST_PAYLOAD <= n <= last && (Pair(b, cut, HEADER, n) || Pair(b, cut, n, HEADER));
      if Pair(b, cut, HEADER, n) {
        PairAccepted(b, cut, HEADER, n, last);
      } else {
        PairAccepted(b, cut, n, HEADER, last);
      }
    }
  }

  method ValidateEncodedFrame(data: seq<Byte>, last: nat) returns (r: Outcome)
    requires last <= MAX_NUMBER
    ensures r == EmptyFrame <==> data == []
    ensures r == FrameTooLarge <==> |data| > MAX_FRAME
    ensures r == Accepted <==> |data| <= MAX_FRAME && Frame(data, last)
    ensures r == Malformed || r == UnknownType ==> r == Scan(data, 0, 0, last)
  {
    hide Frame, FieldLength, ReadTag;
    ScanExact(data, last);
    if |data| == 0 {
      return EmptyFrame;
    }
    if |data| > MAX_FRAME {
      return FrameTooLarge;
    }
    var headers, payloads, remaining := 0, 0, data;
    while |remaining| > 0
      invariant headers >= 0 && payloads >= 0
      invariant Scan(remaining, headers, payloads, last) == Scan(data, 0, 0, last)
    {
      ScanVerdict(remaining, headers, payloads, last);
      var tag := ReadTag(remaining);
      if tag.None? {
        return Malformed;
      }
      remaining := remaining[tag.value.length..];
      var field := FieldLength(tag.value.number, tag.value.wire, remaining, RECURSION_LIMIT);
      if field.None? {
        return Malformed;
      }
      if tag.value.number == HEADER {
        headers := headers + 1;
      } else if FIRST_PAYLOAD <= tag.value.number <= last {
        payloads := payloads + 1;
      } else {
        return UnknownType;
      }
      if tag.value.wire != BYTES {
        return Malformed;
      }
      remaining := remaining[field.value..];
    }
    ScanVerdict(remaining, headers, payloads, last);
    r := if headers != 1 || payloads != 1 then UnknownType else Accepted;
  }

  lemma {:induction false} ScanVerdict(b: seq<Byte>, headers: nat, payloads: nat, last: nat)
    ensures Scan(b, headers, payloads, last) in {Accepted, Malformed, UnknownType}
    decreases |b|
  {
    hide FieldLength, ReadTag;
    if b != [] && ReadTag(b).Some? {
      var tag := ReadTag(b).value;
      var rest := b[tag.length..];
      var field := FieldLength(tag.number, tag.wire, rest, RECURSION_LIMIT);
      if field.Some? && Known(tag.number, last) && tag.wire == BYTES {
        if tag.number == HEADER {
          ScanVerdict(rest[field.value..], headers + 1, payloads, last);
        } else {
          ScanVerdict(rest[field.value..], headers, payloads + 1, last);
        }
      }
    }
  }

  // ---- what an encoder writes is accepted -------------------------------------------------------------------

  function Encode(number: nat, payload: seq<Byte>): seq<Byte> {
    EncodeVarint(8 * number + BYTES) + EncodeVarint(|payload|) + payload
  }

  lemma {:induction false} EncodeIsRecord(number: nat, payload: seq<Byte>)
    requires number <= MAX_NUMBER && |payload| <= MAX_FRAME
    ensures Record(Encode(number, payload), number)
  {
    hide EncodeVarint;
    VarintRange();
    var tag, length := EncodeVarint(8 * number + BYTES), EncodeVarint(|payload|);
    VarintRoundTrip(8 * number + BYTES, 0, []);
    VarintRoundTrip(|payload|, 0, []);
    assert tag + [] == tag && length + [] == length;
    var b := Encode(number, payload);
    assert b[..|tag|] == tag && b[|tag|..|tag| + |length|] == length;
    assert RecordAt(b, number, |tag|, |length|);
  }

  /** A header and a payload within the size limit are accepted in either order. */
  lemma {:induction false} EncodedAccepted(header: seq<Byte>, number: nat, payload: seq<Byte>, last: nat)
    requires FIRST_PAYLOAD <= number <= last <= MAX_NUMBER
    requires |Encode(HEADER, header) + Encode(number, payload)| <= MAX_FRAME
    ensures Frame(Encode(HEADER, header) + Encode(number, payload), last)
    ensures Frame(Encode(number, payload) + Encode(HEADER, header), last)
  {
    var x, y := Encode(HEADER, header), Encode(number, payload);
    assert |header| <= |x| && |payload| <= |y|;
    hide Encode, Record;
    EncodeIsRecord(HEADER, header);
    EncodeIsRecord(number, payload);
    assert (x + y)[..|x|] == x && (x + y)[|x|..] == y && (y + x)[..|y|] == y && (y + x)[|y|..] == x;
    assert Pair(x + y, |x|, HEADER, number) && Pair(y + x, |y|, number, HEADER);
  }
}
