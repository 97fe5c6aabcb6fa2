/** The incremental packer: one batch of messages for one Kinesis request. */
module Batches {
  import opened Bytes
  import opened Sizes
  import opened Packing

  datatype FlushReason = Unset | Size | Interval | Drain

  /** The batch's fields as a value. */
  datatype BatchState = BatchState(
    totalMessageSize: nat,
    entryMessageSize: nat,
    entryNumber: nat,
    messages: seq<Message>,
    flushReason: FlushReason)
  {
    function RequestTotalSize(): nat {
      (entryNumber + 1) * ENTRY_TOTAL_METADATA_SIZE + totalMessageSize
    }

    function EntrySize(): nat { ENTRY_METADATA_SIZE + entryMessageSize }
  }

  const EMPTY := BatchState(0, 0, 0, [], Unset)

  datatype Attempt = Attempt(state: BatchState, added: bool)

  /** `entryLimit` is the source's entry-count guard. */
  function TryAddWithin(s: BatchState, m: Message, entryLimit: Option<nat>): Attempt {
    var size := SizeOf(m);
    if size + s.RequestTotalSize() > MAX_REQUEST_SIZE then Attempt(s, false)
    else if size + s.EntrySize() > MAX_ENTRY_SIZE then
      if entryLimit == Some(s.entryNumber) then Attempt(s, false)
      else if size + s.RequestTotalSize() + ENTRY_TOTAL_METADATA_SIZE > MAX_REQUEST_SIZE then Attempt(s, false)
      else Attempt(s.(totalMessageSize := s.totalMessageSize + size,
                      entryMessageSize := size,
                      entryNumber := s.entryNumber + 1,
                      messages := s.messages + [m]), true)
    else Attempt(s.(totalMessageSize := s.totalMessageSize + size,
                    entryMessageSize := s.entryMessageSize + size,
                    messages := s.messages + [m]), true)
  }

  function TryAdd(s: BatchState, m: Message): Attempt {
    TryAddWithin(s, m, Some(MAX_ENTRIES_PER_REQUEST))
  }

  class Batch {
    var totalMessageSize: nat
    var entryMessageSize: nat
    var entryNumber: nat
    var messages: seq<Message>
    var flushReason: FlushReason

    function State(): BatchState
      reads this
    {
      BatchState(totalMessageSize, entryMessageSize, entryNumber, messages, flushReason)
    }

    constructor ()
      ensures State() == EMPTY
    {
      totalMessageSize, entryMessageSize, entryNumber := 0, 0, 0;
      messages, flushReason := [], Unset;
    }

    method TryAddMessage(message: Message) returns (added: bool)
      modifies this
      ensures Attempt(State(), added) == TryAdd(old(State()), message)
      ensures added ==> messages == old(messages) + [message]
      ensures !added ==> State() == old(State())
    {
      var msgSize := SizeOf(message);
      if msgSize + State().RequestTotalSize() > MAX_REQUEST_SIZE {
        return false;
      }
      if msgSize + State().EntrySize() > MAX_ENTRY_SIZE {
        if entryNumber == MAX_ENTRIES_PER_REQUEST {
          return false;
        }
        if msgSize + State().RequestTotalSize() + ENTRY_TOTAL_METADATA_SIZE > MAX_REQUEST_SIZE {
          return false;
        }
        entryNumber := entryNumber + 1;
        entryMessageSize := 0;
      }
      totalMessageSize := totalMessageSize + msgSize;
      entryMessageSize := entryMessageSize + msgSize;
      messages := messages + [message];
      return true;
    }

    method Reset()
      modifies this
      ensures State() == EMPTY
    {
      totalMessageSize, entryMessageSize, entryNumber := 0, 0, 0;
      messages := [];
      flushReason := Unset;
    }
  }

  ghost function LastLoad(gs: seq<Group>): nat {
    if gs == [] then 0 else TotalSize(gs[|gs| - 1])
  }

  ghost predicate Counts(s: BatchState, total: nat, gs: seq<Group>) {
    && s.totalMessageSize == total
    && s.entryMessageSize == LastLoad(gs)
    && s.entryNumber == (if gs == [] then 0 else |gs| - 1)
  }

  /**
   What the counters mean: they are those of the next-fit packing of the batch's
   messages, and that packing stays within the request limit.
   */
  ghost predicate Packed(s: BatchState) {
    var gs := NextFit(s.messages);
    && AllFit(s.messages)
    && Counts(s, TotalSize(s.messages), gs)
    && RequestBytes(s.messages) <= MAX_REQUEST_SIZE
  }

  lemma EmptyIsPacked()
    ensures Packed(EMPTY)
  {}

  lemma FlushReasonIrrelevant(b: BatchState, reason: FlushReason)
    requires Packed(b)
    ensures Packed(b.(flushReason := reason))
  {
    hide NextFit, TotalSize;
  }

  lemma PackedIsWithinLimits(s: BatchState)
    requires Packed(s)
    ensures s.entryNumber < MAX_REACHABLE_ENTRIES
    ensures s.messages != [] ==> s.RequestTotalSize() == RequestBytes(s.messages) <= MAX_REQUEST_SIZE
  {
    EntryCountBound(s.messages);
  }

  /** On a packed batch the entry-count guard never decides the outcome. */
  lemma GuardNeverDecides(s: BatchState, m: Message)
    requires Packed(s)
    ensures TryAdd(s, m) == TryAddWithin(s, m, None)
  {
    PackedIsWithinLimits(s);
  }

  lemma PlacedCounters(gs: seq<Group>, m: Message)
    requires Fits(m)
    ensures var after := Place(gs, m);
            if gs != [] && SizeOf(m) + ENTRY_METADATA_SIZE + LastLoad(gs) <= MAX_ENTRY_SIZE
            then |after| == |gs| && LastLoad(after) == LastLoad(gs) + SizeOf(m)
            else |after| == |gs| + 1 && LastLoad(after) == SizeOf(m)
  {
    TotalSizeSnoc([], m);
    assert [] + [m] == [m];
    if gs != [] {
      TotalSizeSnoc(gs[|gs| - 1], m);
    }
  }

  lemma TryAddCounts(s: BatchState, total: nat, gs: seq<Group>, m: Message)
    requires Fits(m) && Counts(s, total, gs) && s.entryNumber < MAX_REACHABLE_ENTRIES
    requires gs == [] ==> total == 0
    ensures var after := Place(gs, m);
            && (TryAdd(s, m).added <==>
                |after| * ENTRY_TOTAL_METADATA_SIZE + total + SizeOf(m) <= MAX_REQUEST_SIZE)
            && (TryAdd(s, m).added ==> Counts(TryAdd(s, m).state, total + SizeOf(m), after))
  {
    PlacedCounters(gs, m);
  }

  /**
   A fitting message is taken exactly when the packing of the longer list still
   respects the request limit; the batch stays packed either way.
   */
  lemma TryAddMeaning(s: BatchState, m: Message)
    requires Packed(s) && Fits(m)
    ensures TryAdd(s, m).added <==> RequestBytes(s.messages + [m]) <= MAX_REQUEST_SIZE
    ensures Packed(TryAdd(s, m).state)
    ensures TryAdd(s, m).state.messages == if TryAdd(s, m).added then s.messages + [m] else s.messages
  {
    PackedIsWithinLimits(s);
    TryAddCounts(s, TotalSize(s.messages), NextFit(s.messages), m);
    NextFitSnoc(s.messages, m);
    TotalSizeSnoc(s.messages, m);
  }

  /**
   Re-adding to a new batch, which the aggregate loop does without looking at the
   result: it drops the message exactly beyond this size, so never a fitting one.
   */
  lemma FreshBatchTakes(m: Message)
    ensures TryAdd(EMPTY, m).added <==> SizeOf(m) <= MAX_REQUEST_SIZE - 2 * ENTRY_TOTAL_METADATA_SIZE == 5242728
    ensures Fits(m) ==> TryAdd(EMPTY, m).added && Packed(TryAdd(EMPTY, m).state)
                        && TryAdd(EMPTY, m).state.messages == [m]
  {
    if Fits(m) {
      TryAddMeaning(EMPTY, m);
      assert EMPTY.messages + [m] == [m];
    }
  }

  // Reachable batches

  function Attempts(s: BatchState, ms: seq<Message>): BatchState {
    if ms == [] then s else TryAdd(Attempts(s, ms[..|ms| - 1]), ms[|ms| - 1]).state
  }

  ghost predicate Reachable(s: BatchState) {
    exists ms: seq<Message> :: AllFit(ms) && Attempts(EMPTY, ms) == s
  }

  lemma {:induction false} AttemptsPacked(ms: seq<Message>)
    requires AllFit(ms)
    ensures Packed(Attempts(EMPTY, ms)) && Attempts(EMPTY, ms).flushReason == Unset
  {
    if ms != [] {
      AttemptsPacked(ms[..|ms| - 1]);
      TryAddMeaning(Attempts(EMPTY, ms[..|ms| - 1]), ms[|ms| - 1]);
    }
  }

  lemma {:induction false} PackedReplays(ms: seq<Message>)
    requires AllFit(ms) && RequestBytes(ms) <= MAX_REQUEST_SIZE
    ensures Attempts(EMPTY, ms).messages == ms
  {
    if ms != [] {
      var front, m := ms[..|ms| - 1], ms[|ms| - 1];
      assert ms == front + [m];
      RequestBytesSnoc(front, m);
      PackedReplays(front);
      AttemptsPacked(front);
      TryAddMeaning(Attempts(EMPTY, front), m);
    }
  }

  /** The packed batches are exactly the ones adding fitting messages can reach. */
  lemma ReachableIffPacked(s: BatchState)
    requires s.flushReason == Unset
    ensures Reachable(s) <==> Packed(s)
  {
    if Reachable(s) {
      var ms: seq<Message> :| AllFit(ms) && Attempts(EMPTY, ms) == s;
      AttemptsPacked(ms);
    }
    if Packed(s) {
      PackedReplays(s.messages);
      AttemptsPacked(s.messages);
      assert Attempts(EMPTY, s.messages) == s;
    }
  }
}
