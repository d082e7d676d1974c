/** The Protocol Buffers wire format, as far as a frame scanner needs it: varints, tags and field lengths. */
module WireFormat {
  import opened Wrappers

  type Byte = x: int | 0 <= x < 256

  datatype Read = Read(value: nat, length: nat)

  const VARINT := 0
  const FIXED64 := 1
  const BYTES := 2
  const START_GROUP := 3
  const END_GROUP := 4
  const FIXED32 := 5

  const MAX_NUMBER := 0x7fff_ffff
  const RECURSION_LIMIT := 10000

  /** A base-128 number of at most ten bytes that fits 64 bits, of which k bytes were read before. */
  function VarintFrom(b: seq<Byte>, k: nat): (r: Option<Read>)
    requires k <= 9
    ensures r.Some? ==> 1 <= r.value.length <= |b| && r.value.length <= 10 - k
    decreases 9 - k
  {
    if b == [] then None
    else if k == 9 then if b[0] < 2 then Some(Read(b[0], 1)) else None
    else if b[0] < 128 then Some(Read(b[0], 1))
    else
      var rest := VarintFrom(b[1..], k + 1);
      if rest.None? then None else Some(Read(b[0] - 128 + 128 * rest.value.value, rest.value.length + 1))
  }

  function Varint(b: seq<Byte>): (r: Option<Read>)
    ensures r.Some? ==> 1 <= r.value.length <= |b|
  {
    VarintFrom(b, 0)
  }

  /** The exact bytes of some encoding of v. */
  predicate IsVarint(b: seq<Byte>, v: nat) { Varint(b) == Some(Read(v, |b|)) }

  datatype Tag = Tag(number: nat, wire: nat, length: nat)

  function ReadTag(b: seq<Byte>): (r: Option<Tag>)
    ensures r.Some? ==> 1 <= r.value.number <= MAX_NUMBER && 0 <= r.value.wire < 8 && 1 <= r.value.length <= |b|
  {
    var v := Varint(b);
    if v.None? || !(1 <= v.value.value / 8 <= MAX_NUMBER) then None
    else Some(Tag(v.value.value / 8, v.value.value % 8, v.value.length))
  }

  /** The length of a field's value, if it is well formed. */
  function FieldLength(number: nat, wire: nat, b: seq<Byte>, depth: int): (r: Option<nat>)
    ensures r.Some? ==> r.value <= |b|
    decreases |b|, 1
  {
    if wire == VARINT then
      var v := Varint(b);
      if v.None? then None else Some(v.value.length)
    else if wire == FIXED32 then if |b| < 4 then None else Some(4)
    else if wire == FIXED64 then if |b| < 8 then None else Some(8)
    else if wire == BYTES then
      var v := Varint(b);
      if v.None? || v.value.value > |b| - v.value.length then None else Some(v.value.length + v.value.value)
    else if wire == START_GROUP then if depth < 0 then None else GroupLength(number, b, depth)
    else None
  }

  /** The length of a group's fields together with its closing tag. */
  function GroupLength(number: nat, b: seq<Byte>, depth: int): (r: Option<nat>)
    ensures r.Some? ==> r.value <= |b|
    decreases |b|, 0
  {
    var tag := ReadTag(b);
    if tag.None? then None
    else
      var rest := b[tag.value.length..];
      if tag.value.wire == END_GROUP then if tag.value.number == number then Some(tag.value.length) else None
      else
        var field := FieldLength(tag.value.number, tag.value.wire, rest, depth - 1);
        if field.None? then None
        else
          var others := GroupLength(number, rest[field.value..], depth);
          if others.None? then None else Some(tag.value.length + field.value + others.value)
  }

  // ---- encoding -----------------------------------------------------------------------------------------

  function Power(k: nat): nat { if k == 0 then 1 else 128 * Power(k - 1) }

  function EncodeVarint(v: nat): seq<Byte> { if v < 128 then [v] else [v % 128 + 128] + EncodeVarint(v / 128) }

  /** What is read depends only on the bytes that are read. */
  lemma {:induction false} VarintPrefix(b: seq<Byte>, k: nat, other: seq<Byte>)
    requires k <= 9 && VarintFrom(b, k).Some?
    ensures VarintFrom(b[..VarintFrom(b, k).value.length] + other, k) == VarintFrom(b, k)
    decreases 9 - k
  {
    if k < 9 && b[0] >= 128 {
      VarintPrefix(b[1..], k + 1, other);
      var n := VarintFrom(b, k).value.length;
      assert (b[..n] + other)[1..] == b[1..][..n - 1] + other;
    }
  }

  /** Encoding then decoding gives the value back, whatever follows. */
  lemma {:induction false} VarintRoundTrip(v: nat, k: nat, rest: seq<Byte>)
    requires k <= 9 && v < 2 * Power(9 - k)
    ensures VarintFrom(EncodeVarint(v) + rest, k) == Some(Read(v, |EncodeVarint(v)|))
    decreases 9 - k
  {
    if v >= 128 {
      assert k < 9;
      VarintRoundTrip(v / 128, k + 1, rest);
      assert (EncodeVarint(v) + rest)[1..] == EncodeVarint(v / 128) + rest;
    }
  }

  lemma {:induction false} VarintRange()
    ensures 2 * Power(9) == 0x1_0000_0000_0000_0000
  {
    assert Power(1) == 128 && Power(2) == 0x4000 && Power(3) == 0x20_0000;
    assert Power(4) == 0x1000_0000 && Power(5) == 0x8_0000_0000 && Power(6) == 0x400_0000_0000;
    assert Power(7) == 0x2_0000_0000_0000 && Power(8) == 0x100_0000_0000_0000;
  }
}
