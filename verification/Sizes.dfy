/** The producer's closed-form size table, and the real length it stands for. */
module Sizes {
  import opened Bytes
  import opened ProtoWire
  import opened AggregatedRecord

  const KSUID_STRING_SIZE := 27
  const MAX_ENTRIES_PER_REQUEST := 500
  const MAX_ENTRY_SIZE := 51200
  const MAX_REQUEST_SIZE := 0x50_0000

  /**
   A buffered message. `id` numbers the accepted messages, `buf` is the identity
   of the pooled buffer that holds it, `body` is the buffer's content.
   */
  datatype Message = Message(id: nat, buf: nat, body: seq<byte>)

  type PartitionKey = k: seq<byte> | |k| == KSUID_STRING_SIZE witness seq(KSUID_STRING_SIZE, _ => 48)

  const AGGREGATE_METADATA_SIZE: nat := |MAGIC| + MD5_SIZE
  const RECORD_METADATA_SIZE: nat := 9 + 20
  const ENTRY_METADATA_SIZE: nat := AGGREGATE_METADATA_SIZE + RECORD_METADATA_SIZE
  const ENTRY_TOTAL_METADATA_SIZE: nat := ENTRY_METADATA_SIZE + KSUID_STRING_SIZE

  function MessageProtoSize(l: nat): nat {
    if l <= 123 then l + 6
    else if l <= 127 then l + 7
    else if l <= 16378 then l + 8
    else if l <= 16383 then l + 9
    else l + 10
  }

  function SizeOf(m: Message): nat { MessageProtoSize(|m.body|) }

  function TotalSize(ms: seq<Message>): nat {
    if ms == [] then 0 else SizeOf(ms[0]) + TotalSize(ms[1..])
  }

  /** The hypothesis on buffered messages: alone, it makes an acceptable entry. */
  predicate Fits(m: Message) { SizeOf(m) + ENTRY_METADATA_SIZE <= MAX_ENTRY_SIZE }

  predicate AllFit(ms: seq<Message>) { forall m <- ms :: Fits(m) }

  function RecordsOf(ms: seq<Message>): seq<Record> {
    seq(|ms|, i requires 0 <= i < |ms| => Record(0, ms[i].body))
  }

  /** What one entry carries: one partition key, every record pointing at it. */
  function AggregateOf(key: PartitionKey, ms: seq<Message>): Aggregate {
    Aggregate([key], RecordsOf(ms))
  }

  /** Longest body whose Record still has a three-byte length prefix. */
  const EXACT_BODY_LIMIT: nat := 2097145

  lemma Pow128Values()
    ensures Pow128(1) == 0x80 && Pow128(2) == 0x4000 && Pow128(3) == 0x20_0000
  {
    assert Pow128(1) == 128 * Pow128(0);
  }

  lemma EmbeddedLength(data: seq<byte>)
    ensures var inner := 3 + |Varint(|data|)| + |data|;
            && |EncodeFields(RecordFields(Record(0, data)))| == inner
            && |EncodeField(EmbeddedRecord(Record(0, data)))| == 1 + |Varint(inner)| + inner
  {
    var fs := RecordFields(Record(0, data));
    EncodeFieldsSingle(fs[1]);
    assert fs[1..] == [fs[1]];
  }

  /** The table never overestimates, and it is exact precisely up to the limit. */
  lemma SizeTableExact(data: seq<byte>)
    ensures var actual := |EncodeField(EmbeddedRecord(Record(0, data)))|;
            && MessageProtoSize(|data|) <= actual
            && (MessageProtoSize(|data|) == actual <==> |data| <= EXACT_BODY_LIMIT)
  {
    var l := |data|;
    var inner := 3 + |Varint(l)| + l;
    EmbeddedLength(data);
    Pow128Values();
    VarintWidth(l, 1); VarintWidth(l, 2); VarintWidth(l, 3);
    VarintWidth(inner, 1); VarintWidth(inner, 2); VarintWidth(inner, 3);
  }

  predicate WithinExactRange(ms: seq<Message>) { forall m <- ms :: |m.body| <= EXACT_BODY_LIMIT }

  lemma {:induction false} RecordsLength(ms: seq<Message>)
    ensures TotalSize(ms) <= |EncodeFields(EmbeddedRecords(RecordsOf(ms)))|
    ensures TotalSize(ms) == |EncodeFields(EmbeddedRecords(RecordsOf(ms)))| <==> WithinExactRange(ms)
  {
    hide EncodeField, EmbeddedRecord;
    if ms != [] {
      var rest := EmbeddedRecords(RecordsOf(ms[1..]));
      RecordsLength(ms[1..]);
      SizeTableExact(ms[0].body);
      assert RecordsOf(ms)[1..] == RecordsOf(ms[1..]);
      EncodeFieldsCons(EmbeddedRecord(Record(0, ms[0].body)), rest);
      assert ms == [ms[0]] + ms[1..];
    }
  }

  /**
   For every message list, metadata size plus the table's sizes is the length of
   the entry's data exactly when every body is within the table's range.
   */
  lemma EntryLengthExact(md5: Md5, key: PartitionKey, ms: seq<Message>)
    ensures ENTRY_METADATA_SIZE + TotalSize(ms) <= |EncodeEntry(md5, AggregateOf(key, ms))|
    ensures ENTRY_METADATA_SIZE + TotalSize(ms) == |EncodeEntry(md5, AggregateOf(key, ms))|
            <==> WithinExactRange(ms)
  {
    var a := AggregateOf(key, ms);
    KeyFieldLength(key);
    assert KeyFields([key]) == [KeyField(key)];
    EncodeFieldsCons(KeyField(key), EmbeddedRecords(a.records));
    RecordsLength(ms);
  }

  lemma KeyFieldLength(key: PartitionKey)
    ensures |EncodeField(KeyField(key))| == RECORD_METADATA_SIZE
  {}

  /** Fitting messages are far inside the table's range. */
  lemma FitsIffShort(m: Message)
    ensures Fits(m) <==> |m.body| <= 51141
  {}

  lemma {:induction false} TotalSizeAppend(a: seq<Message>, b: seq<Message>)
    ensures TotalSize(a + b) == TotalSize(a) + TotalSize(b)
  {
    if a == [] {
      assert a + b == b;
    } else {
      TotalSizeAppend(a[1..], b);
      assert (a + b)[1..] == a[1..] + b;
    }
  }

  lemma TotalSizeSnoc(a: seq<Message>, m: Message)
    ensures TotalSize(a + [m]) == TotalSize(a) + SizeOf(m)
  {
    TotalSizeAppend(a, [m]);
    assert TotalSize([m]) == SizeOf(m) + TotalSize([]);
  }

  /** Consumers read back the partition key and exactly the packed bodies, in order. */
  lemma PackedEntryRoundTrip(md5: Md5, key: PartitionKey, ms: seq<Message>)
    requires WithinExactRange(ms)
    ensures DecodeEntry(md5, EncodeEntry(md5, AggregateOf(key, ms))) == Some(AggregateOf(key, ms))
  {
    var a := AggregateOf(key, ms);
    forall r <- a.records ensures RecordRepresentable(r) {
      SizeTableExact(r.data);
      EmbeddedLength(r.data);
    }
    EntryRoundTrip(md5, a);
  }

  /** The Record a consumer must find for each message: key index zero, and the message's bytes. */
  lemma DecodedEntry(md5: Md5, key: PartitionKey, ms: seq<Message>)
    requires WithinExactRange(ms)
    ensures var a := DecodeEntry(md5, EncodeEntry(md5, AggregateOf(key, ms)));
            && a.Some? && a.value.keys == [key] && |a.value.records| == |ms|
            && forall i :: 0 <= i < |ms| ==> a.value.records[i] == Record(0, ms[i].body)
  {
    hide DecodeEntry, EncodeEntry;
    PackedEntryRoundTrip(md5, key, ms);
  }

  // The bytes of an entry, in numbers

  function RecordBytes(body: seq<byte>): seq<byte> {
    [0x1A] + Varint(3 + |Varint(|body|)| + |body|) + [0x08, 0x00, 0x1A] + Varint(|body|) + body
  }

  function RecordsBytes(ms: seq<Message>): seq<byte> {
    if ms == [] then [] else RecordBytes(ms[0].body) + RecordsBytes(ms[1..])
  }

  lemma IndexBytes()
    ensures EncodeField(VarintField(1, 0)) == [0x08, 0x00]
  {}

  lemma PayloadBytes(payload: seq<byte>)
    ensures EncodeField(LenField(3, payload)) == [0x1A] + Varint(|payload|) + payload
  {
    assert Varint(0x1A) == [0x1A];
  }

  lemma EmbeddedBytes(body: seq<byte>)
    ensures EncodeField(EmbeddedRecord(Record(0, body))) == RecordBytes(body)
  {
    hide EncodeField, Varint;
    var fs := RecordFields(Record(0, body));
    EmbeddedLength(body);
    IndexBytes();
    PayloadBytes(body);
    EncodeFieldsSingle(fs[1]);
    EncodeFieldsCons(fs[0], [fs[1]]);
    assert fs == [fs[0]] + [fs[1]];
    PayloadBytes(EncodeFields(fs));
    Rebracket([0x08, 0x00], [0x1A], Varint(|body|) + body);
    Rebracket([0x1A], Varint(|body|), body);
    Regrouped(Varint(3 + |Varint(|body|)| + |body|), Varint(|body|), body);
  }

  lemma Regrouped(size: seq<byte>, length: seq<byte>, body: seq<byte>)
    ensures [0x1A] + size + ([0x08, 0x00] + ([0x1A] + length + body))
            == [0x1A] + size + [0x08, 0x00, 0x1A] + length + body
  {}

  lemma {:induction false} AllEmbeddedBytes(ms: seq<Message>)
    ensures EncodeFields(EmbeddedRecords(RecordsOf(ms))) == RecordsBytes(ms)
  {
    hide EncodeField, EmbeddedRecord, RecordBytes;
    if ms != [] {
      AllEmbeddedBytes(ms[1..]);
      EmbeddedBytes(ms[0].body);
      assert RecordsOf(ms)[1..] == RecordsOf(ms[1..]);
      EncodeFieldsCons(EmbeddedRecord(Record(0, ms[0].body)), EmbeddedRecords(RecordsOf(ms[1..])));
    }
  }

  lemma KeyBytes(key: PartitionKey)
    ensures EncodeField(KeyField(key)) == [0x0A, 0x1B] + key
  {
    assert Varint(0x0A) == [0x0A] && Varint(27) == [0x1B];
  }

  /** Every byte of an entry: magic number, key table, one Record a message, and the digest of all but the magic. */
  lemma EntryBytes(md5: Md5, key: PartitionKey, ms: seq<Message>)
    ensures var body := [0x0A, 0x1B] + key + RecordsBytes(ms);
            EncodeEntry(md5, AggregateOf(key, ms)) == [0xF3, 0x89, 0x9A, 0xC2] + body + Hash(md5, body)
  {
    hide EncodeField, KeyField, RecordsBytes;
    var a := AggregateOf(key, ms);
    KeyBytes(key);
    AllEmbeddedBytes(ms);
    assert KeyFields([key]) == [KeyField(key)];
    EncodeFieldsCons(KeyField(key), EmbeddedRecords(a.records));
  }
}
