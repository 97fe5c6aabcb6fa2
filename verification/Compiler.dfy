/** Compiling a batch into the entries of one request, over pooled entry objects. */
module Compiler {
  import opened Bytes
  import opened AggregatedRecord
  import opened Sizes
  import opened Packing

  class Entry {
    var data: seq<byte>
    var partitionKey: Option<PartitionKey>

    constructor ()
      ensures IsClear()
    {
      data, partitionKey := [], None;
    }

    predicate IsClear()
      reads this
    {
      data == [] && partitionKey == None
    }
  }

  /** `free` holds the entries nobody owns; `Get` may always allocate instead. */
  class EntryPool {
    var free: set<Entry>

    ghost predicate Valid()
      reads this, free
    {
      forall e <- free :: e.IsClear()
    }

    constructor ()
      ensures Valid() && free == {}
    {
      free := {};
    }

    method Get() returns (e: Entry)
      requires Valid()
      modifies this
      ensures Valid() && e.IsClear() && e !in free
      ensures free == old(free) - {e}
      ensures e in old(free) || fresh(e)
    {
      var reuse: bool := *;
      if reuse && free != {} {
        e :| e in free;
        free := free - {e};
      } else {
        e := new Entry();
      }
    }

    /** Truncates the entry and takes ownership of it. */
    method Put(e: Entry)
      requires Valid() && e !in free
      modifies this, e
      ensures Valid() && free == old(free) + {e}
    {
      e.data, e.partitionKey := [], None;
      free := free + {e};
    }
  }

  /** Partition keys are drawn in order from a generator that is not modelled further. */
  type Keys = nat -> PartitionKey

  function KeyAt(keys: Keys, i: nat): PartitionKey { keys(i) }

  /** Marshalling is foreign code: which aggregates it rejects is left open. */
  type Marshaller = Aggregate -> bool

  predicate Rejects(fails: Marshaller, a: Aggregate) { fails(a) }

  function GroupAggregate(keys: Keys, first: nat, gs: seq<Group>, i: nat): Aggregate
    requires i < |gs|
  {
    AggregateOf(KeyAt(keys, first + i), gs[i])
  }

  /** Data and partition key of one entry. */
  datatype Sent = Sent(data: seq<byte>, key: PartitionKey)

  function SentFor(md5: Md5, key: PartitionKey, g: Group): Sent {
    Sent(EncodeEntry(md5, AggregateOf(key, g)), key)
  }

  /** The i-th group goes out under the i-th next key. */
  function SentGroups(md5: Md5, keys: Keys, first: nat, gs: seq<Group>): seq<Sent> {
    if gs == [] then []
    else
      var last := |gs| - 1;
      SentGroups(md5, keys, first, gs[..last]) + [SentFor(md5, KeyAt(keys, first + last), gs[last])]
  }

  lemma {:induction false} SentGroupsLength(md5: Md5, keys: Keys, first: nat, gs: seq<Group>)
    ensures |SentGroups(md5, keys, first, gs)| == |gs|
  {
    if gs != [] {
      SentGroupsLength(md5, keys, first, gs[..|gs| - 1]);
    }
  }

  ghost predicate Carries(es: seq<Entry>, sent: seq<Sent>)
    reads es
  {
    && |es| == |sent|
    && forall i :: 0 <= i < |es| ==> es[i].data == sent[i].data && es[i].partitionKey == Some(sent[i].key)
  }

  lemma NothingSent(md5: Md5, fails: Marshaller, keys: Keys, first: nat)
    ensures Carries([], SentGroups(md5, keys, first, []))
    ensures !SomeGroupFails(fails, keys, first, [])
  {}

  ghost predicate SomeGroupFails(fails: Marshaller, keys: Keys, first: nat, gs: seq<Group>) {
    exists i :: 0 <= i < |gs| && Rejects(fails, GroupAggregate(keys, first, gs, i))
  }

  /** Group k is rejected, and none before it. */
  ghost predicate FailsFirstAt(fails: Marshaller, keys: Keys, first: nat, gs: seq<Group>, k: nat) {
    && k < |gs| && Rejects(fails, GroupAggregate(keys, first, gs, k))
    && !SomeGroupFails(fails, keys, first, gs[..k])
  }

  lemma FirstFailure(fails: Marshaller, keys: Keys, first: nat, gs: seq<Group>, k: nat)
    requires FailsFirstAt(fails, keys, first, gs, k)
    ensures SomeGroupFails(fails, keys, first, gs)
  {}

  lemma CarriesNext(es: seq<Entry>, e: Entry, md5: Md5, keys: Keys, first: nat, gs: seq<Group>, g: Group)
    requires Carries(es, SentGroups(md5, keys, first, gs))
    requires Carries([e], [SentFor(md5, KeyAt(keys, first + |gs|), g)])
    ensures Carries(es + [e], SentGroups(md5, keys, first, gs + [g]))
  {
    hide EncodeEntry;
    var next := SentFor(md5, KeyAt(keys, first + |gs|), g);
    assert (gs + [g])[..|gs|] == gs;
    assert [e][0].data == [next][0].data && [e][0].partitionKey == Some([next][0].key);
  }

  lemma NextFailure(fails: Marshaller, keys: Keys, first: nat, gs: seq<Group>, g: Group)
    ensures SomeGroupFails(fails, keys, first, gs + [g])
            <==> SomeGroupFails(fails, keys, first, gs) || Rejects(fails, AggregateOf(KeyAt(keys, first + |gs|), g))
  {
    var after := gs + [g];
    assert forall i :: 0 <= i < |gs| ==> GroupAggregate(keys, first, after, i) == GroupAggregate(keys, first, gs, i);
    assert GroupAggregate(keys, first, after, |gs|) == AggregateOf(KeyAt(keys, first + |gs|), g);
  }

  ghost function Members(es: seq<Entry>): set<Entry> { set e | e in es }

  lemma MembersSnoc(es: seq<Entry>, e: Entry)
    ensures Members(es + [e]) == Members(es) + {e}
  {}

  /** The first `done` messages have gone out as `gone`. */
  ghost predicate SplitAt(ms: seq<Message>, done: nat, gone: seq<Group>) {
    AllFit(ms) && done <= |ms| && gone + Greedy(ms[done..]) == NextFit(ms)
  }

  ghost function NextGroup(ms: seq<Message>, done: nat): Group
    requires done <= |ms|
  {
    ms[done..][..GreedyLen(ms[done..], ENTRY_METADATA_SIZE)]
  }

  lemma SplitEnds(ms: seq<Message>)
    requires AllFit(ms)
    ensures SplitAt(ms, 0, [])
    ensures forall gone | SplitAt(ms, |ms|, gone) :: gone == NextFit(ms)
  {
    PackersAgree(ms);
    assert ms[0..] == ms && ms[|ms|..] == [];
    forall gone | SplitAt(ms, |ms|, gone) ensures gone == NextFit(ms) {
      assert gone + [] == gone;
    }
  }

  /** One iteration of the compile loop takes exactly the next group. */
  lemma SplitStep(ms: seq<Message>, done: nat, gone: seq<Group>)
    requires SplitAt(ms, done, gone) && done < |ms|
    ensures var g := NextGroup(ms, done);
            && g == ms[done..][..GreedyLen(ms[done..], ENTRY_METADATA_SIZE)]
            && g != [] && SplitAt(ms, done + |g|, gone + [g])
            && exists rest :: NextFit(ms) == (gone + [g]) + rest
  {
    var rest, g := ms[done..], NextGroup(ms, done);
    assert Fits(rest[0]);
    assert rest[|g|..] == ms[done + |g|..];
    assert gone + Greedy(rest) == (gone + [g]) + Greedy(rest[|g|..]);
  }

  lemma RejectedGroup(ms: seq<Message>, done: nat, gone: seq<Group>, fails: Marshaller, keys: Keys, first: nat)
    requires SplitAt(ms, done, gone) && done < |ms| && !SomeGroupFails(fails, keys, first, gone)
    requires Rejects(fails, AggregateOf(KeyAt(keys, first + |gone|), NextGroup(ms, done)))
    ensures FailsFirstAt(fails, keys, first, NextFit(ms), |gone|)
  {
    hide SomeGroupFails, AggregateOf, SplitAt, NextFit;
    var g := NextGroup(ms, done);
    SplitStep(ms, done, gone);
    var rest :| NextFit(ms) == (gone + [g]) + rest;
    assert NextFit(ms)[|gone|] == g && NextFit(ms)[..|gone|] == gone;
  }

  datatype Compiled = NoMessages | Failed | Request(entries: seq<Entry>)

  class BatchCompiler {
    const md5: Md5
    const keys: Keys
    const marshalFails: Marshaller
    const pool: EntryPool
    var keysUsed: nat
    var records: seq<Record>
    var aggregate: Aggregate
    var hashed: seq<byte>

    constructor (md5: Md5, keys: Keys, marshalFails: Marshaller, pool: EntryPool)
      ensures this.md5 == md5 && this.keys == keys && this.pool == pool && keysUsed == 0
      ensures this.marshalFails == marshalFails
    {
      this.md5, this.keys, this.marshalFails, this.pool := md5, keys, marshalFails, pool;
      keysUsed, records, aggregate, hashed := 0, [], Aggregate([], []), [];
    }

    /** Collects the longest prefix that fits one entry into the aggregate. */
    method AggregateRecords(messages: seq<Message>, partitionKey: PartitionKey) returns (msgIdx: nat)
      modifies this`records, this`aggregate
      ensures msgIdx == GreedyLen(messages, ENTRY_METADATA_SIZE)
      ensures aggregate == AggregateOf(partitionKey, messages[..msgIdx])
      ensures aggregate.keys == [partitionKey] && |aggregate.records| == msgIdx
      ensures forall j :: 0 <= j < msgIdx ==> aggregate.records[j] == Record(0, messages[j].body)
    {
      aggregate := aggregate.(keys := [partitionKey]);
      var entrySize: nat := ENTRY_METADATA_SIZE;
      msgIdx := 0;
      records := [];
      while msgIdx < |messages|
        invariant msgIdx <= |messages|
        invariant GreedyLen(messages, ENTRY_METADATA_SIZE) == msgIdx + GreedyLen(messages[msgIdx..], entrySize)
        invariant records == RecordsOf(messages[..msgIdx])
        invariant aggregate.keys == [partitionKey]
      {
        var msgSize := SizeOf(messages[msgIdx]);
        if msgSize + entrySize > MAX_ENTRY_SIZE {
          break;
        }
        assert messages[msgIdx..][1..] == messages[msgIdx + 1..];
        assert messages[..msgIdx + 1][..msgIdx] == messages[..msgIdx];
        records := records + [Record(0, messages[msgIdx].body)];
        entrySize := entrySize + msgSize;
        msgIdx := msgIdx + 1;
      }
      aggregate := aggregate.(records := records);
    }

    /**
     Packs the longest prefix that fits one entry. A null entry reports a
     marshalling error; the entry taken for it, pooled or new, is then in the pool.
     */
    method CompileMessages(messages: seq<Message>) returns (n: nat, entry: Entry?, ghost taken: Entry)
      requires pool.Valid()
      modifies this, pool, pool.free
      ensures pool.Valid() && keysUsed == old(keysUsed) + 1
      ensures taken in old(pool.free) || fresh(taken)
      ensures var g := messages[..GreedyLen(messages, ENTRY_METADATA_SIZE)];
              if Rejects(marshalFails, AggregateOf(KeyAt(keys, old(keysUsed)), g)) then
                n == 0 && entry == null && pool.free == old(pool.free) + {taken}
              else
                && n == |g|
                && entry == taken && entry !in pool.free
                && pool.free == old(pool.free) - {entry}
                && Carries([entry], [SentFor(md5, KeyAt(keys, old(keysUsed)), g)])
    {
      hide GreedyLen, Marshal, AggregateOf;
      var partitionKey := KeyAt(keys, keysUsed);
      keysUsed := keysUsed + 1;
      n := AggregateRecords(messages, partitionKey);

      entry := pool.Get();
      taken := entry;
      entry.data := entry.data + MAGIC;
      entry.data := entry.data + Marshal(aggregate);
      if Rejects(marshalFails, aggregate) {
        pool.Put(entry);
        return 0, null, taken;
      }
      hashed := entry.data[|MAGIC|..];
      assert hashed == Marshal(aggregate);
      entry.data := entry.data + Hash(md5, hashed);
      entry.partitionKey := Some(partitionKey);
    }

    /** Gives every entry of a failed batch back. */
    method Release(entries: seq<Entry>)
      requires pool.Valid() && Distinct(entries)
      requires forall e <- entries :: e !in pool.free
      modifies pool, entries
      ensures pool.Valid() && pool.free == old(pool.free) + Members(entries)
    {
      var i := 0;
      while i < |entries|
        invariant i <= |entries|
        invariant pool.Valid() && pool.free == old(pool.free) + Members(entries[..i])
      {
        assert entries[..i + 1] == entries[..i] + [entries[i]];
        assert entries[i] !in entries[..i];
        pool.Put(entries[i]);
        i := i + 1;
      }
      assert entries[..i] == entries;
    }

    /** What holds after the first `done` messages went out as `gone`. */
    ghost predicate Progress(messages: seq<Message>, done: nat, entries: seq<Entry>, first: nat, gone: seq<Group>)
      reads this, pool, pool.free, entries
    {
      && pool.Valid()
      && SplitAt(messages, done, gone)
      && |entries| == |gone| && keysUsed == first + |gone|
      && Distinct(entries) && (forall e <- entries :: e !in pool.free)
      && Carries(entries, SentGroups(md5, keys, first, gone))
      && !SomeGroupFails(marshalFails, keys, first, gone)
    }

    /** One iteration of the compile loop. */
    method CompileNext(messages: seq<Message>, done: nat, entries: seq<Entry>, ghost first: nat, ghost gone: seq<Group>)
      returns (n: nat, entry: Entry?, ghost taken: Entry)
      requires Progress(messages, done, entries, first, gone) && done < |messages|
      modifies this, pool, pool.free
      ensures (taken in old(pool.free) || fresh(taken)) && taken !in entries
      ensures entry == null ==>
                && pool.Valid() && Distinct(entries) && (forall e <- entries :: e !in pool.free)
                && FailsFirstAt(marshalFails, keys, first, NextFit(messages), |gone|)
                && pool.free == old(pool.free) + {taken} && keysUsed == first + |gone| + 1
      ensures entry != null ==>
                && 0 < n <= |messages| - done
                && entry == taken && pool.free == old(pool.free) - {entry}
                && Progress(messages, done + n, entries + [entry], first, gone + [NextGroup(messages, done)])
    {
      hide NextFit, Greedy, GreedyLen, NextGroup, SentGroups, SomeGroupFails, SplitAt;
      hide AggregateOf, SentFor, Carries, Rejects, FailsFirstAt;
      ghost var g := NextGroup(messages, done);
      SplitStep(messages, done, gone);
      NextFailure(marshalFails, keys, first, gone, g);
      n, entry, taken := CompileMessages(messages[done..]);
      if entry == null {
        RejectedGroup(messages, done, gone, marshalFails, keys, first);
      } else {
        var e: Entry := entry;
        CarriesNext(entries, e, md5, keys, first, gone, g);
        assert entries + [entry] == entries + [e];
      }
    }

    /** The compile loop; it stops early, with `ok` false, at the first marshalling error. */
    method CompileEntries(messages: seq<Message>) returns (ok: bool, entries: seq<Entry>, ghost taken: seq<Entry>)
      requires pool.Valid() && AllFit(messages)
      modifies this, pool, pool.free
      ensures pool.Valid() && Distinct(entries) && forall e <- entries :: e !in pool.free
      ensures Distinct(taken) && forall e <- taken :: e in old(pool.free) || fresh(e)
      ensures ok <==> !SomeGroupFails(marshalFails, keys, old(keysUsed), NextFit(messages))
      ensures keysUsed == old(keysUsed) + |taken|
      ensures ok ==> taken == entries && pool.free == old(pool.free) - Members(entries)
      ensures !ok ==>
                && |taken| == |entries| + 1 && taken[..|entries|] == entries
                && pool.free == old(pool.free) - Members(entries) + {taken[|entries|]}
                && FailsFirstAt(marshalFails, keys, old(keysUsed), NextFit(messages), |entries|)
      ensures ok ==> Carries(entries, SentGroups(md5, keys, old(keysUsed), NextFit(messages)))
    {
      hide NextFit, SentGroups, SomeGroupFails, SplitAt, Carries, NextGroup, FailsFirstAt;
      ghost var first := keysUsed;
      ghost var gone: seq<Group> := [];
      entries := [];
      var done := 0;
      ProgressStarts(messages);
      while done < |messages|
        invariant done <= |messages|
        invariant Progress(messages, done, entries, first, gone)
        invariant pool.free == old(pool.free) - Members(entries)
        invariant forall e <- entries :: e in old(pool.free) || fresh(e)
        decreases |messages| - done
      {
        ghost var last: Entry;
        var n, entry;
        n, entry, last := CompileNext(messages, done, entries, first, gone);
        if entry == null {
          FirstFailure(marshalFails, keys, first, NextFit(messages), |gone|);
          return false, entries, entries + [last];
        }
        gone := gone + [NextGroup(messages, done)];
        MembersSnoc(entries, entry);
        entries := entries + [entry];
        done := done + n;
      }
      ProgressEnds(messages, entries, first, gone);
      ok, taken := true, entries;
    }

    /**
     Entry i carries the i-th next-fit group, under its own key; nothing else is
     sent. After a marshalling error every entry taken, pooled or new, is in the
     pool: one for each group up to the first that is rejected. No key is used twice.
     */
    method CompileBatch(messages: seq<Message>) returns (r: Compiled, ghost taken: seq<Entry>)
      requires pool.Valid() && AllFit(messages)
      modifies this, pool, pool.free
      ensures pool.Valid()
      ensures r.NoMessages? <==> messages == []
      ensures r.NoMessages? ==> pool.free == old(pool.free) && taken == []
      ensures keysUsed == old(keysUsed) + |taken|
      ensures Distinct(taken) && forall e <- taken :: e in old(pool.free) || fresh(e)
      ensures r.Failed? <==> SomeGroupFails(marshalFails, keys, old(keysUsed), NextFit(messages))
      ensures r.Failed? ==>
                && taken != [] && pool.free == old(pool.free) + Members(taken)
                && FailsFirstAt(marshalFails, keys, old(keysUsed), NextFit(messages), |taken| - 1)
      ensures r.Request? ==>
                && taken == r.entries && (forall e <- r.entries :: e !in pool.free)
                && pool.free == old(pool.free) - Members(r.entries)
                && Carries(r.entries, SentGroups(md5, keys, old(keysUsed), NextFit(messages)))
    {
      if |messages| == 0 {
        return NoMessages, [];
      }
      hide NextFit, SentGroups, SomeGroupFails, FailsFirstAt, Carries, Distinct;
      var ok, entries;
      ok, entries, taken := CompileEntries(messages);
      if !ok {
        Release(entries);
        MembersSnoc(entries, taken[|entries|]);
        assert taken == entries + [taken[|entries|]];
        return Failed, taken;
      }
      r := Request(entries);
    }

    lemma ProgressStarts(messages: seq<Message>)
      requires pool.Valid() && AllFit(messages)
      ensures Progress(messages, 0, [], keysUsed, [])
    {
      NothingSent(md5, marshalFails, keys, keysUsed);
      SplitEnds(messages);
    }

    lemma ProgressEnds(messages: seq<Message>, entries: seq<Entry>, first: nat, gone: seq<Group>)
      requires Progress(messages, |messages|, entries, first, gone)
      ensures pool.Valid() && Distinct(entries) && forall e <- entries :: e !in pool.free
      ensures Carries(entries, SentGroups(md5, keys, first, NextFit(messages)))
      ensures !SomeGroupFails(marshalFails, keys, first, NextFit(messages))
    {
      SplitEnds(messages);
    }
  }

  // The bytes of a request

  ghost function SentBytes(md5: Md5, keys: Keys, first: nat, gs: seq<Group>): nat
    decreases gs
  {
    if gs == [] then 0
    else |EncodeEntry(md5, AggregateOf(KeyAt(keys, first), gs[0]))| + KSUID_STRING_SIZE
         + SentBytes(md5, keys, first + 1, gs[1..])
  }

  lemma FitIsWithinExactRange(ms: seq<Message>)
    requires AllFit(ms)
    ensures WithinExactRange(ms)
  {
    forall m <- ms ensures |m.body| <= EXACT_BODY_LIMIT { FitsIffShort(m); }
  }

  lemma {:induction false} SentBytesSum(md5: Md5, keys: Keys, first: nat, gs: seq<Group>)
    requires AllFit(Flatten(gs))
    ensures SentBytes(md5, keys, first, gs) == |gs| * ENTRY_TOTAL_METADATA_SIZE + TotalSize(Flatten(gs))
    decreases gs
  {
    hide EncodeEntry, Fits, AggregateOf;
    if gs != [] {
      var rest := Flatten(gs[1..]);
      assert forall m <- gs[0] :: m in Flatten(gs);
      assert forall m <- rest :: m in Flatten(gs);
      FitIsWithinExactRange(gs[0]);
      EntryLengthExact(md5, KeyAt(keys, first), gs[0]);
      TotalSizeAppend(gs[0], rest);
      SentBytesSum(md5, keys, first + 1, gs[1..]);
    }
  }

  /** What compiling sends is, to the byte, what the batch counted while it was filled. */
  lemma RequestBytesAreSent(md5: Md5, keys: Keys, first: nat, ms: seq<Message>)
    requires AllFit(ms)
    ensures SentBytes(md5, keys, first, NextFit(ms)) == RequestBytes(ms)
  {
    NextFitPacks(ms);
    SentBytesSum(md5, keys, first, NextFit(ms));
  }

  lemma {:induction false} GroupOfFlatten<T>(gs: seq<seq<T>>, i: nat)
    requires i < |gs|
    ensures forall m <- gs[i] :: m in Flatten(gs)
  {
    if i > 0 {
      GroupOfFlatten(gs[1..], i - 1);
    }
  }

  lemma {:induction false} SentGroupsAt(md5: Md5, keys: Keys, first: nat, gs: seq<Group>, i: nat)
    requires i < |gs|
    ensures |SentGroups(md5, keys, first, gs)| == |gs|
    ensures SentGroups(md5, keys, first, gs)[i] == SentFor(md5, KeyAt(keys, first + i), gs[i])
  {
    hide SentFor;
    SentGroupsLength(md5, keys, first, gs);
    var front := gs[..|gs| - 1];
    SentGroupsLength(md5, keys, first, front);
    if i < |front| {
      SentGroupsAt(md5, keys, first, front, i);
    }
  }

  /** What a consumer must read: the one key, and each message's bytes under key index zero, in order. */
  predicate ReadsAs(a: Option<Aggregate>, key: PartitionKey, g: Group) {
    && a.Some? && a.value.keys == [key] && |a.value.records| == |g|
    && forall j :: 0 <= j < |g| ==> a.value.records[j] == Record(0, g[j].body)
  }

  /**
   Entry i of a compiled request is within the entry limit, has the i-th next
   partition key, and reads as the i-th group under that key.
   */
  lemma EveryEntryDecodes(md5: Md5, keys: Keys, first: nat, ms: seq<Message>, es: seq<Entry>, i: nat)
    requires AllFit(ms) && Carries(es, SentGroups(md5, keys, first, NextFit(ms))) && i < |es|
    ensures |es| == |NextFit(ms)|
    ensures es[i].partitionKey == Some(KeyAt(keys, first + i)) && |es[i].data| <= MAX_ENTRY_SIZE
    ensures ReadsAs(DecodeEntry(md5, es[i].data), KeyAt(keys, first + i), NextFit(ms)[i])
  {
    hide EncodeEntry, DecodeEntry, NextFit, AggregateOf, SentGroups;
    var gs := NextFit(ms);
    SentGroupsLength(md5, keys, first, gs);
    SentGroupsAt(md5, keys, first, gs, i);
    NextFitPacks(ms);
    GroupOfFlatten(gs, i);
    FitIsWithinExactRange(gs[i]);
    EntryLengthExact(md5, KeyAt(keys, first + i), gs[i]);
    DecodedEntry(md5, KeyAt(keys, first + i), gs[i]);
  }

  // When the compile loop ends

  /** Messages consumed after k iterations of the compile loop, on any messages at all. */
  function Consumed(ms: seq<Message>, k: nat): (n: nat)
    ensures n <= |ms|
  {
    if k == 0 then 0
    else
      var before := Consumed(ms, k - 1);
      before + GreedyLen(ms[before..], ENTRY_METADATA_SIZE)
  }

  lemma {:induction false} UnfittingStops(ms: seq<Message>, used: nat, i: nat)
    requires used >= ENTRY_METADATA_SIZE && i < |ms| && !Fits(ms[i])
    ensures GreedyLen(ms, used) <= i
  {
    if i > 0 && SizeOf(ms[0]) + used <= MAX_ENTRY_SIZE {
      UnfittingStops(ms[1..], used + SizeOf(ms[0]), i - 1);
    }
  }

  lemma {:induction false} NeverPassesUnfitting(ms: seq<Message>, i: nat, k: nat)
    requires i < |ms| && !Fits(ms[i])
    ensures Consumed(ms, k) <= i
  {
    if k > 0 {
      NeverPassesUnfitting(ms, i, k - 1);
      var before := Consumed(ms, k - 1);
      UnfittingStops(ms[before..], ENTRY_METADATA_SIZE, i - before);
    }
  }

  lemma {:induction false} ProgressWhileFitting(ms: seq<Message>, k: nat)
    requires AllFit(ms)
    ensures Consumed(ms, k) >= if k < |ms| then k else |ms|
  {
    hide TotalSize, SizeOf;
    if k > 0 {
      ProgressWhileFitting(ms, k - 1);
      var before := Consumed(ms, k - 1);
      if before < |ms| {
        assert Fits(ms[before..][0]);
      }
    }
  }

  /** The compile loop ends exactly when every message of the batch fits an entry. */
  lemma CompileEndsIffAllFit(ms: seq<Message>)
    ensures (exists k :: Consumed(ms, k) == |ms|) <==> AllFit(ms)
  {
    if AllFit(ms) {
      ProgressWhileFitting(ms, |ms|);
      assert Consumed(ms, |ms|) == |ms|;
    } else {
      var i :| 0 <= i < |ms| && !Fits(ms[i]);
      forall k: nat ensures Consumed(ms, k) != |ms| { NeverPassesUnfitting(ms, i, k); }
    }
  }
}
