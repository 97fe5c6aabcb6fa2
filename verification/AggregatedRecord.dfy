/**
 The KPL aggregated record: magic number, protobuf AggregatedRecord, MD5 digest.
 The digest is any function with a 16-byte result.
 */
module AggregatedRecord {
  import opened Bytes
  import opened ProtoWire

  const MAGIC: seq<byte> := [0xF3, 0x89, 0x9A, 0xC2]
  const MD5_SIZE := 16

  type Digest = d: seq<byte> | |d| == MD5_SIZE witness seq(MD5_SIZE, _ => 0)
  type Md5 = seq<byte> -> Digest

  function Hash(md5: Md5, bs: seq<byte>): Digest { md5(bs) }

  datatype Record = Record(keyIndex: nat, data: seq<byte>)
  datatype Aggregate = Aggregate(keys: seq<seq<byte>>, records: seq<Record>)

  // Writer

  function RecordFields(r: Record): seq<Field> {
    [VarintField(1, r.keyIndex), LenField(3, r.data)]
  }

  function KeyField(key: seq<byte>): Field { LenField(1, key) }

  function EmbeddedRecord(r: Record): Field { LenField(3, EncodeFields(RecordFields(r))) }

  function KeyFields(keys: seq<seq<byte>>): seq<Field> {
    if keys == [] then [] else [KeyField(keys[0])] + KeyFields(keys[1..])
  }

  function EmbeddedRecords(rs: seq<Record>): seq<Field> {
    if rs == [] then [] else [EmbeddedRecord(rs[0])] + EmbeddedRecords(rs[1..])
  }

  function AggregateFields(a: Aggregate): seq<Field> {
    KeyFields(a.keys) + EmbeddedRecords(a.records)
  }

  function Marshal(a: Aggregate): seq<byte> { EncodeFields(AggregateFields(a)) }

  function EncodeEntry(md5: Md5, a: Aggregate): seq<byte> {
    MAGIC + Marshal(a) + Hash(md5, Marshal(a))
  }

  // Reader

  /** The last occurrence of a scalar field wins. */
  function LastVarint(fs: seq<Field>, num: nat): Option<nat> {
    if fs == [] then None
    else
      var f := fs[|fs| - 1];
      if f.VarintField? && f.num == num then Some(f.value) else LastVarint(fs[..|fs| - 1], num)
  }

  function LastLen(fs: seq<Field>, num: nat): Option<seq<byte>> {
    if fs == [] then None
    else
      var f := fs[|fs| - 1];
      if f.LenField? && f.num == num then Some(f.payload) else LastLen(fs[..|fs| - 1], num)
  }

  /** A Record without a key index or without data is rejected: both are required. */
  function DecodeRecord(bs: seq<byte>): Option<Record> {
    var fs := ReadFields(bs);
    if fs.None? then None
    else
      var key := LastVarint(fs.value, 1);
      var data := LastLen(fs.value, 3);
      if key.None? || data.None? then None else Some(Record(key.value, data.value))
  }

  /** Repeated fields accumulate in order; fields of other numbers are skipped. */
  function Collect(fs: seq<Field>): Option<Aggregate> {
    if fs == [] then Some(Aggregate([], []))
    else
      var tail := Collect(fs[1..]);
      if tail.None? then None
      else
        match fs[0]
        case LenField(1, key) => Some(tail.value.(keys := [key] + tail.value.keys))
        case LenField(3, payload) =>
          var r := DecodeRecord(payload);
          if r.None? then None else Some(tail.value.(records := [r.value] + tail.value.records))
        case _ => tail
  }

  function Unmarshal(bs: seq<byte>): Option<Aggregate> {
    var fs := ReadFields(bs);
    if fs.None? then None else Collect(fs.value)
  }

  function DecodeEntry(md5: Md5, bs: seq<byte>): Option<Aggregate> {
    if |bs| < |MAGIC| + MD5_SIZE || bs[..|MAGIC|] != MAGIC then None
    else
      var body := bs[|MAGIC|..|bs| - MD5_SIZE];
      if Hash(md5, body) != bs[|bs| - MD5_SIZE..] then None else Unmarshal(body)
  }

  // Round trip

  predicate Representable(a: Aggregate) {
    && (forall k <- a.keys :: |k| < TWO_64)
    && (forall r <- a.records :: RecordRepresentable(r))
  }

  lemma RecordRoundTrip(r: Record)
    requires r.keyIndex < TWO_64 && |r.data| < TWO_64
    ensures DecodeRecord(EncodeFields(RecordFields(r))) == Some(r)
  {
    var fs := RecordFields(r);
    FieldsRoundTrip(fs);
    assert fs[..1] == [fs[0]];
    assert LastVarint(fs, 1) == LastVarint(fs[..1], 1);
  }

  predicate RecordRepresentable(r: Record) {
    && r.keyIndex < TWO_64 && |r.data| < TWO_64
    && |EncodeFields(RecordFields(r))| < TWO_64
  }

  lemma {:induction false} CollectRecords(rs: seq<Record>)
    requires forall r <- rs :: RecordRepresentable(r)
    ensures Collect(EmbeddedRecords(rs)) == Some(Aggregate([], rs))
    ensures forall f <- EmbeddedRecords(rs) :: WellFormed(f)
  {
    hide EncodeFields, DecodeRecord, RecordFields;
    if rs != [] {
      assert RecordRepresentable(rs[0]);
      CollectRecords(rs[1..]);
      RecordRoundTrip(rs[0]);
      assert EmbeddedRecords(rs)[1..] == EmbeddedRecords(rs[1..]);
      assert [rs[0]] + rs[1..] == rs;
    }
  }

  lemma {:induction false} CollectInverts(a: Aggregate)
    requires Representable(a)
    ensures Collect(AggregateFields(a)) == Some(a)
    decreases |a.keys|
  {
    hide EncodeFields, DecodeRecord, RecordFields;
    if a.keys == [] {
      CollectRecords(a.records);
      assert AggregateFields(a) == EmbeddedRecords(a.records);
    } else {
      var b := a.(keys := a.keys[1..]);
      CollectInverts(b);
      assert AggregateFields(a) == [KeyField(a.keys[0])] + AggregateFields(b);
      assert [a.keys[0]] + b.keys == a.keys;
    }
  }

  lemma AggregateWellFormed(a: Aggregate)
    requires Representable(a)
    ensures forall f <- AggregateFields(a) :: WellFormed(f)
  {
    CollectRecords(a.records);
    KeysWellFormed(a.keys);
  }

  lemma {:induction false} KeysWellFormed(keys: seq<seq<byte>>)
    requires forall k <- keys :: |k| < TWO_64
    ensures forall f <- KeyFields(keys) :: WellFormed(f)
  {
    if keys != [] {
      KeysWellFormed(keys[1..]);
    }
  }

  /** A consumer that checks the magic number and the digest reads every entry back. */
  lemma EntryRoundTrip(md5: Md5, a: Aggregate)
    requires Representable(a)
    ensures DecodeEntry(md5, EncodeEntry(md5, a)) == Some(a)
  {
    var bs := EncodeEntry(md5, a);
    assert bs[..|MAGIC|] == MAGIC;
    assert bs[|MAGIC|..|bs| - MD5_SIZE] == Marshal(a);
    assert bs[|bs| - MD5_SIZE..] == Hash(md5, Marshal(a));
    CollectInverts(a);
    AggregateWellFormed(a);
    FieldsRoundTrip(AggregateFields(a));
  }
}
