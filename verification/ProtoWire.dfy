/**
 The part of the Protocol Buffers encoding the producer relies on: base-128
 varints and the VARINT and LEN wire types. The writer is what the generated
 marshaller emits; the reader is an independent parser of any field list.
 */
module ProtoWire {
  import opened Bytes

  const WIRE_VARINT := 0
  const WIRE_LEN := 2
  const MAX_VARINT_BYTES: nat := 10

  datatype Field =
    | VarintField(num: nat, value: nat)
    | LenField(num: nat, payload: seq<byte>)

  datatype Read<+T> = Malformed | Got(value: T, rest: seq<byte>)

  function Varint(n: nat): (bs: seq<byte>)
    ensures |bs| >= 1
  {
    if n < 128 then [n] else [128 + n % 128] + Varint(n / 128)
  }

  /** At most `fuel` bytes are accepted, and the value must fit in 64 bits. */
  function ReadVarint(bs: seq<byte>, fuel: nat := MAX_VARINT_BYTES): (r: Read<nat>)
    ensures r.Got? ==> |r.rest| < |bs|
    decreases fuel
  {
    if fuel == 0 || bs == [] then Malformed
    else if bs[0] < 128 then Got(bs[0], bs[1..])
    else
      var tail := ReadVarint(bs[1..], fuel - 1);
      if tail.Malformed? then Malformed
      else
        var v := bs[0] - 128 + 128 * tail.value;
        if v < TWO_64 then Got(v, tail.rest) else Malformed
  }

  ghost function Pow128(k: nat): nat {
    if k == 0 then 1 else 128 * Pow128(k - 1)
  }

  /** `n` takes at most k bytes exactly when it is below 128^k. */
  lemma {:induction false} VarintWidth(n: nat, k: nat)
    requires k >= 1
    ensures |Varint(n)| <= k <==> n < Pow128(k)
    decreases n
  {
    if n >= 128 {
      if k == 1 {
        assert Pow128(1) == 128 * Pow128(0);
      } else {
        VarintWidth(n / 128, k - 1);
      }
    } else {
      Pow128Positive(k - 1);
    }
  }

  lemma Pow128Positive(k: nat)
    ensures Pow128(k) >= 1
  {}

  /** The number the low seven bits of each byte spell, least significant first. */
  ghost function Base128(bs: seq<byte>): nat {
    if bs == [] then 0 else bs[0] % 128 + 128 * Base128(bs[1..])
  }

  lemma {:induction false} VarintSpells(n: nat)
    ensures Base128(Varint(n)) == n
    decreases n
  {
    if n < 128 {
      assert Base128([n]) == n + 128 * Base128([]);
    } else {
      VarintSpells(n / 128);
      assert Varint(n)[1..] == Varint(n / 128);
    }
  }

  lemma {:induction false} VarintTopBits(n: nat, k: nat)
    requires k < |Varint(n)|
    ensures Varint(n)[k] >= 128 <==> k < |Varint(n)| - 1
    ensures n >= 128 && k == |Varint(n)| - 1 ==> Varint(n)[k] > 0
    decreases n
  {
    if n >= 128 && k > 0 {
      VarintTopBits(n / 128, k - 1);
    }
  }

  /** The bytes of a varint: seven bits each from the lowest up, and the top bit set on all but the last. */
  lemma VarintBytes(n: nat)
    ensures Base128(Varint(n)) == n
    ensures forall k :: 0 <= k < |Varint(n)| ==> (Varint(n)[k] >= 128 <==> k < |Varint(n)| - 1)
    ensures n >= 128 ==> Varint(n)[|Varint(n)| - 1] > 0
  {
    hide Base128, Varint;
    VarintSpells(n);
    forall k: nat | k < |Varint(n)|
      ensures Varint(n)[k] >= 128 <==> k < |Varint(n)| - 1
      ensures n >= 128 && k == |Varint(n)| - 1 ==> Varint(n)[k] > 0
    {
      VarintTopBits(n, k);
    }
  }

  lemma {:induction false} ReadVarintInverts(n: nat, rest: seq<byte>, fuel: nat)
    requires n < TWO_64 && |Varint(n)| <= fuel
    ensures ReadVarint(Varint(n) + rest, fuel) == Got(n, rest)
    decreases n
  {
    var bs := Varint(n) + rest;
    if n < 128 {
      assert bs[1..] == rest;
    } else {
      assert bs[1..] == Varint(n / 128) + rest;
      ReadVarintInverts(n / 128, rest, fuel - 1);
    }
  }

  /** Every 64-bit value is read back, and the reader stops where the value ends. */
  lemma VarintRoundTrip(n: nat, rest: seq<byte>)
    requires n < TWO_64
    ensures ReadVarint(Varint(n) + rest) == Got(n, rest)
  {
    assert n < Pow128(10) by {
      assert Pow128(10) == 128 * (128 * (128 * (128 * (128 * Pow128(5)))));
      assert Pow128(5) == 128 * (128 * (128 * (128 * (128 * Pow128(0)))));
    }
    VarintWidth(n, 10);
    ReadVarintInverts(n, rest, 10);
  }

  function Tag(num: nat, wire: nat): nat { 8 * num + wire }

  function EncodeField(f: Field): (bs: seq<byte>)
    ensures |bs| >= 1
  {
    match f
    case VarintField(num, value) => Varint(Tag(num, WIRE_VARINT)) + Varint(value)
    case LenField(num, payload) => Varint(Tag(num, WIRE_LEN)) + Varint(|payload|) + payload
  }

  function EncodeFields(fs: seq<Field>): seq<byte> {
    if fs == [] then [] else EncodeField(fs[0]) + EncodeFields(fs[1..])
  }

  lemma EncodeFieldsSingle(f: Field)
    ensures EncodeFields([f]) == EncodeField(f)
  {
    assert EncodeFields([f]) == EncodeField(f) + EncodeFields([]);
  }

  lemma {:induction false} EncodeFieldsAppend(a: seq<Field>, b: seq<Field>)
    ensures EncodeFields(a + b) == EncodeFields(a) + EncodeFields(b)
  {
    if a == [] {
      assert a + b == b;
    } else {
      assert a + b == [a[0]] + (a[1..] + b);
      EncodeFieldsCons(a[0], a[1..] + b);
      EncodeFieldsAppend(a[1..], b);
      Rebracket(EncodeField(a[0]), EncodeFields(a[1..]), EncodeFields(b));
    }
  }

  lemma EncodeFieldsCons(f: Field, fs: seq<Field>)
    ensures EncodeFields([f] + fs) == EncodeField(f) + EncodeFields(fs)
  {
    assert ([f] + fs)[1..] == fs;
  }

  /** Field numbers are positive and below 2^29; values and lengths are 64-bit. */
  predicate WellFormed(f: Field) {
    && 1 <= f.num < 0x2000_0000
    && (f.VarintField? ==> f.value < TWO_64)
    && (f.LenField? ==> |f.payload| < TWO_64)
  }

  function ReadField(bs: seq<byte>): (r: Read<Field>)
    ensures r.Got? ==> |r.rest| < |bs|
  {
    var tag := ReadVarint(bs);
    if tag.Malformed? || tag.value / 8 == 0 then Malformed
    else
      var num := tag.value / 8;
      var body := ReadVarint(tag.rest);
      if body.Malformed? then Malformed
      else if tag.value % 8 == WIRE_VARINT then Got(VarintField(num, body.value), body.rest)
      else if tag.value % 8 == WIRE_LEN && body.value <= |body.rest| then
        Got(LenField(num, body.rest[..body.value]), body.rest[body.value..])
      else Malformed
  }

  function ReadFields(bs: seq<byte>): Option<seq<Field>>
    decreases |bs|
  {
    if bs == [] then Some([])
    else
      var head := ReadField(bs);
      if head.Malformed? then None
      else
        var tail := ReadFields(head.rest);
        if tail.None? then None else Some([head.value] + tail.value)
  }

  lemma VarintFieldRoundTrip(num: nat, value: nat, rest: seq<byte>)
    requires WellFormed(VarintField(num, value))
    ensures ReadField(EncodeField(VarintField(num, value)) + rest) == Got(VarintField(num, value), rest)
  {
    hide Varint, ReadVarint;
    var tag, body := Tag(num, WIRE_VARINT), Varint(value) + rest;
    VarintRoundTrip(tag, body);
    VarintRoundTrip(value, rest);
    assert EncodeField(VarintField(num, value)) + rest == Varint(tag) + body;
  }

  lemma LenFieldRoundTrip(num: nat, payload: seq<byte>, rest: seq<byte>)
    requires WellFormed(LenField(num, payload))
    ensures ReadField(EncodeField(LenField(num, payload)) + rest) == Got(LenField(num, payload), rest)
  {
    hide Varint, ReadVarint;
    var tag, body := Tag(num, WIRE_LEN), payload + rest;
    VarintRoundTrip(tag, Varint(|payload|) + body);
    VarintRoundTrip(|payload|, body);
    assert EncodeField(LenField(num, payload)) + rest == Varint(tag) + (Varint(|payload|) + body);
    assert body[..|payload|] == payload && body[|payload|..] == rest;
  }

  lemma FieldRoundTrip(f: Field, rest: seq<byte>)
    requires WellFormed(f)
    ensures ReadField(EncodeField(f) + rest) == Got(f, rest)
  {
    match f
    case VarintField(num, value) => VarintFieldRoundTrip(num, value, rest);
    case LenField(num, payload) => LenFieldRoundTrip(num, payload, rest);
  }

  /** Parsing any encoded field list gives the list back, in order. */
  lemma {:induction false} FieldsRoundTrip(fs: seq<Field>)
    requires forall f <- fs :: WellFormed(f)
    ensures ReadFields(EncodeFields(fs)) == Some(fs)
    decreases |fs|
  {
    hide EncodeField, ReadField;
    if fs != [] {
      FieldRoundTrip(fs[0], EncodeFields(fs[1..]));
      FieldsRoundTrip(fs[1..]);
      assert [fs[0]] + fs[1..] == fs;
    }
  }
}
