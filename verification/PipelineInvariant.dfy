/** What every step of the producer keeps. */
module PipelineInvariant {
  import opened Bytes
  import opened Sizes
  import opened Packing
  import opened Batches
  import opened Compiler
  import opened Sums
  import opened Pipeline

  // Order: nothing between Put and the output channel is dropped or reordered

  ghost function HeldByAggregator(a: Aggregator): seq<Message> {
    match a
    case NotStarted => []
    case Ready(current) => current.state.messages
    case Blocked(full, _, after) => full.state.messages + if after.Readd? then [after.m] else []
    case Finished => []
  }

  ghost predicate InOrder(f: Front) {
    && f.accepted == f.sent + HeldByAggregator(f.agg) + f.input
    && (forall i :: 0 <= i < |f.accepted| ==> f.accepted[i].id == i)
    && AllFit(f.accepted)
    && (f.agg.Blocked? ==> f.agg.spare.state == EMPTY)
    && (f.agg.Finished? ==> f.input == [] && !f.inputOpen)
    && (f.agg.Blocked? && f.agg.after.Return? ==> f.input == [] && !f.inputOpen)
  }

  // Delivery: what left the aggregator is queued, in a worker, or settled

  ghost function FilledMsgs(b: Filled): multiset<Message> { multiset(b.state.messages) }

  ghost function WorkerMsgs(w: Worker): multiset<Message> {
    match w
    case Compiling(batch, _, _) => FilledMsgs(batch)
    case Sending(request) => Sum(request, OutMsgs)
    case _ => multiset{}
  }

  ghost function Unsettled(b: Back): multiset<Message> {
    Sum(b.output, FilledMsgs) + Sum(b.workers, WorkerMsgs)
  }

  ghost function Settled(b: Back): multiset<Message> { b.acked + b.failed + b.lost }

  ghost predicate Delivering(f: Front, b: Back) {
    multiset(f.sent) == Unsettled(b) + Settled(b)
  }

  // Packing: batches and requests stay within the service's limits

  ghost function GroupsOf(es: seq<Out>): seq<Group> {
    if es == [] then [] else [es[0].group] + GroupsOf(es[1..])
  }

  ghost function GroupBytes(o: Out): nat { ENTRY_TOTAL_METADATA_SIZE + TotalSize(o.group) }

  ghost function OutBytes(es: seq<Out>): nat {
    if es == [] then 0 else GroupBytes(es[0]) + OutBytes(es[1..])
  }

  ghost predicate WithinLimits(request: seq<Out>) {
    && |request| <= MAX_REACHABLE_ENTRIES
    && OutBytes(request) <= MAX_REQUEST_SIZE
    && forall o <- request :: o.group != [] && ENTRY_METADATA_SIZE + TotalSize(o.group) <= MAX_ENTRY_SIZE
  }

  ghost predicate GoodWorker(w: Worker) {
    match w
    case Compiling(batch, done, entries) =>
      && Packed(batch.state)
      && done < |batch.state.messages|
      && SplitAt(batch.state.messages, done, GroupsOf(entries))
    case Sending(request) => WithinLimits(request)
    case _ => true
  }

  ghost predicate WellPacked(f: Front, b: Back, p: Pools) {
    && (f.agg.Ready? ==> Packed(f.agg.current.state))
    && (f.agg.Blocked? ==> Packed(f.agg.full.state))
    && (forall x <- b.output :: Packed(x.state))
    && (forall w <- b.workers :: GoodWorker(w))
    && (forall bid <- p.batches :: p.batches[bid] == EMPTY)
  }

  // Ownership: no pooled object has two owners

  ghost function BufOf(m: Message): multiset<nat> { multiset{m.buf} }
  ghost function BidOf(b: Filled): multiset<nat> { multiset{b.bid} }
  ghost function EidOf(o: Out): multiset<nat> { multiset{o.eid} }

  ghost function FilledBufs(b: Filled): multiset<nat> { Sum(b.state.messages, BufOf) }

  ghost function WorkerBufs(w: Worker): multiset<nat> {
    if w.Compiling? then FilledBufs(w.batch) else multiset{}
  }

  ghost function WorkerBids(w: Worker): multiset<nat> {
    if w.Compiling? then BidOf(w.batch) else multiset{}
  }

  ghost function WorkerEids(w: Worker): multiset<nat> {
    match w
    case Compiling(_, _, entries) => Sum(entries, EidOf)
    case Sending(request) => Sum(request, EidOf)
    case _ => multiset{}
  }

  ghost function AggregatorBids(a: Aggregator): multiset<nat> {
    match a
    case Ready(current) => BidOf(current)
    case Blocked(full, spare, _) => BidOf(full) + BidOf(spare)
    case _ => multiset{}
  }

  ghost function BackBufs(b: Back): multiset<nat> { Sum(b.output, FilledBufs) + Sum(b.workers, WorkerBufs) }
  ghost function BackBids(b: Back): multiset<nat> { Sum(b.output, BidOf) + Sum(b.workers, WorkerBids) }

  ghost function HeldBufs(f: Front, b: Back): multiset<nat> {
    Sum(HeldByAggregator(f.agg) + f.input, BufOf) + BackBufs(b)
  }

  ghost function HeldBids(f: Front, b: Back): multiset<nat> { AggregatorBids(f.agg) + BackBids(b) }

  ghost function HeldEids(b: Back): multiset<nat> { Sum(b.workers, WorkerEids) }

  ghost predicate BufsOwned(f: Front, b: Back, p: Pools) { Owns(p.bufs, p.lostBufs, p.nextBuf, HeldBufs(f, b)) }
  ghost predicate BatchesOwned(f: Front, b: Back, p: Pools) {
    Owns(p.batches.Keys, p.lostBatches, p.nextBatch, HeldBids(f, b))
  }
  ghost predicate EntriesOwned(b: Back, p: Pools) { Owns(p.entries, p.lostEntries, p.nextEntry, HeldEids(b)) }

  // Shutting down

  ghost predicate ShuttingDown(f: Front, b: Back) {
    && (f.agg.NotStarted? ==> b.workers == [] && b.output == [] && f.sent == [] && b.outputOpen)
    && (!b.outputOpen ==> f.agg.Finished?)
    && (b.closed ==> !b.outputOpen && forall w <- b.workers :: w.Exited?)
    && (forall k :: 0 <= k < |b.workers| && b.workers[k].Exited? ==> !b.outputOpen && b.output == [])
  }

  ghost predicate Inv(s: State) {
    && InOrder(s.front)
    && Delivering(s.front, s.back)
    && WellPacked(s.front, s.back, s.pools)
    && BufsOwned(s.front, s.back, s.pools)
    && BatchesOwned(s.front, s.back, s.pools)
    && EntriesOwned(s.back, s.pools)
    && ShuttingDown(s.front, s.back)
  }

  lemma InvInitially()
    ensures Inv(INITIAL)
  {}

  // Put

  lemma PutInOrder(f: Front, m: Message)
    requires InOrder(f) && f.inputOpen && m.id == |f.accepted| && Fits(m)
    ensures InOrder(f.(accepted := f.accepted + [m], input := f.input + [m]))
  {
    var held := HeldByAggregator(f.agg);
    assert f.accepted + [m] == f.sent + held + (f.input + [m]);
  }

  lemma PutBufs(f: Front, b: Back, m: Message)
    ensures HeldBufs(f.(accepted := f.accepted + [m], input := f.input + [m]), b) == HeldBufs(f, b) + multiset{m.buf}
  {
    hide BackBufs, Sum;
    var before := HeldByAggregator(f.agg) + f.input;
    assert HeldByAggregator(f.agg) + (f.input + [m]) == before + [m];
    SumSnoc(before, m, BufOf);
  }

  lemma PutKeeps(s: State, step: Step)
    requires Inv(s) && step.Put? && Fitting(step) && Enabled(s, step)
    ensures Inv(Apply(s, step))
  {
    hide InOrder, Unsettled, Settled, HeldBufs, AggregatorBids, HeldEids, Owns, Packed, GoodWorker;
    var m := Buffered(s, step.compressed, step.buf);
    PutInOrder(s.front, m);
    PutBufs(s.front, s.back, m);
    OwnsTake(s.pools.bufs, s.pools.lostBufs, s.pools.nextBuf, HeldBufs(s.front, s.back), step.buf);
  }

  // Start, flush and drain

  lemma {:induction false} SumOfIdle<T>(ws: seq<Worker>, f: Worker -> multiset<T>)
    requires f(Idle) == multiset{} && forall k :: 0 <= k < |ws| ==> ws[k] == Idle
    ensures Sum(ws, f) == multiset{}
  {
    if ws != [] {
      SumOfIdle(ws[1..], f);
    }
  }

  lemma GetBatch(p: Pools, held: multiset<nat>, bid: nat)
    requires Owns(p.batches.Keys, p.lostBatches, p.nextBatch, held) && Available(p.batches.Keys, p.nextBatch, bid)
    ensures var q := AfterGet(p, bid); Owns(q.batches.Keys, q.lostBatches, q.nextBatch, held + multiset{bid})
  {
    OwnsTake(p.batches.Keys, p.lostBatches, p.nextBatch, held, bid);
    assert AfterGet(p, bid).batches.Keys == p.batches.Keys - {bid};
  }

  lemma IdleHoldsNothing(b: Back, idle: seq<Worker>)
    requires b.workers == [] && forall k :: 0 <= k < |idle| ==> idle[k] == Idle
    ensures var c := b.(workers := idle);
            && Unsettled(c) == Unsettled(b) && HeldEids(c) == HeldEids(b)
            && BackBufs(c) == BackBufs(b) && BackBids(c) == BackBids(b)
  {
    SumOfIdle(idle, WorkerMsgs);
    SumOfIdle(idle, WorkerBufs);
    SumOfIdle(idle, WorkerBids);
    SumOfIdle(idle, WorkerEids);
  }

  lemma StartKeeps(s: State, step: Step)
    requires Inv(s) && step.Start? && Enabled(s, step)
    ensures Inv(Apply(s, step))
  {
    hide Sum, BackBufs, BackBids, Unsettled, HeldEids, Owns, Packed;
    var idle := seq(step.workers, _ => Idle);
    IdleHoldsNothing(s.back, idle);
    EmptyIsPacked();
    assert Got(s.pools, step.bid).state == EMPTY;
    assert HeldBufs(Apply(s, step).front, s.back) == HeldBufs(s.front, s.back);
    assert HeldBids(Apply(s, step).front, s.back) == HeldBids(s.front, s.back) + multiset{step.bid};
    GetBatch(s.pools, HeldBids(s.front, s.back), step.bid);
  }

  lemma FlushKeeps(s: State, bid: nat, reason: FlushReason, after: After)
    requires Inv(s) && s.front.agg.Ready? && !after.Readd?
    requires Available(s.pools.batches.Keys, s.pools.nextBatch, bid)
    requires after.Return? ==> s.front.input == [] && !s.front.inputOpen
    ensures Inv(AfterFlush(s, bid, reason, after))
  {
    hide Sum, BackBufs, BackBids, Unsettled, HeldEids, Owns, SplitAt, GoodWorker, NextFit, TotalSize;
    var t := AfterFlush(s, bid, reason, after);
    assert HeldByAggregator(t.front.agg) == HeldByAggregator(s.front.agg);
    assert HeldBids(t.front, t.back) == HeldBids(s.front, s.back) + multiset{bid};
    GetBatch(s.pools, HeldBids(s.front, s.back), bid);
  }

  // Receive

  lemma ReceiveInOrder(f: Front, agg: Aggregator)
    requires InOrder(f) && f.agg.Ready? && f.input != []
    requires HeldByAggregator(agg) == HeldByAggregator(f.agg) + [f.input[0]]
    requires agg.Ready? || (agg.Blocked? && agg.after.Readd? && agg.spare.state == EMPTY)
    ensures InOrder(f.(input := f.input[1..], agg := agg))
    ensures HeldByAggregator(agg) + f.input[1..] == HeldByAggregator(f.agg) + f.input
  {
    var before := HeldByAggregator(f.agg);
    assert f.sent + (before + [f.input[0]]) + f.input[1..] == f.sent + before + f.input;
  }

  lemma AcceptedFits(f: Front, m: Message)
    requires InOrder(f)
    requires m in HeldByAggregator(f.agg) + f.input
    ensures Fits(m)
  {
    assert m in f.accepted;
  }

  lemma ReceiveAdds(f: Front)
    requires InOrder(f) && f.agg.Ready? && f.input != [] && Packed(f.agg.current.state)
    ensures var attempt := TryAdd(f.agg.current.state, f.input[0]);
            && Packed(attempt.state)
            && attempt.state.messages == f.agg.current.state.messages + (if attempt.added then [f.input[0]] else [])
            && (!attempt.added ==> attempt.state == f.agg.current.state)
  {
    hide Packed;
    AcceptedFits(f, f.input[0]);
    TryAddMeaning(f.agg.current.state, f.input[0]);
  }

  lemma ReceiveKeeps(s: State, step: Step)
    requires Inv(s) && step.Receive? && Enabled(s, step)
    ensures Inv(Apply(s, step))
  {
    hide Inv, AfterReceive;
    AfterReceiveKeeps(s, step.bid);
  }

  lemma AfterReceiveKeeps(s: State, bid: nat)
    requires Inv(s) && Enabled(s, Receive(bid))
    ensures Inv(AfterReceive(s, bid))
  {
    hide Sum, BackBufs, BackBids, Unsettled, Settled, Owns, GoodWorker, Packed, InOrder, TryAdd;
    var f := s.front;
    var t := AfterReceive(s, bid);
    ReceiveAdds(f);
    EmptyIsPacked();
    FlushReasonIrrelevant(f.agg.current.state, Size);
    ReceiveInOrder(f, t.front.agg);
    assert HeldBufs(t.front, t.back) == HeldBufs(f, s.back);
    if t.front.agg.Ready? {
      assert HeldBids(t.front, t.back) == HeldBids(f, s.back);
    } else {
      assert HeldBids(t.front, t.back) == HeldBids(f, s.back) + multiset{bid};
      GetBatch(s.pools, HeldBids(f, s.back), bid);
    }
  }

  // Emit

  lemma ReaddTakes(f: Front)
    requires InOrder(f) && f.agg.Blocked? && f.agg.after.Readd?
    ensures var state := TryAdd(f.agg.spare.state, f.agg.after.m).state;
            Packed(state) && state.messages == [f.agg.after.m]
  {
    AcceptedFits(f, f.agg.after.m);
    FreshBatchTakes(f.agg.after.m);
  }

  lemma EmitInOrder(f: Front, agg: Aggregator)
    requires InOrder(f) && f.agg.Blocked?
    requires HeldByAggregator(f.agg) == f.agg.full.state.messages + HeldByAggregator(agg)
    requires agg.Ready? || (agg.Finished? && f.input == [] && !f.inputOpen)
    ensures InOrder(f.(agg := agg, sent := f.sent + f.agg.full.state.messages))
  {
    var full, rest := f.agg.full.state.messages, HeldByAggregator(agg);
    assert f.sent + (full + rest) + f.input == (f.sent + full) + rest + f.input;
  }

  lemma EmitBufs(f: Front, b: Back, agg: Aggregator, full: Filled)
    requires HeldByAggregator(f.agg) == full.state.messages + HeldByAggregator(agg)
    ensures HeldBufs(f.(agg := agg, sent := f.sent + full.state.messages), b.(output := b.output + [full]))
            == HeldBufs(f, b)
  {
    var rest := HeldByAggregator(agg) + f.input;
    assert HeldByAggregator(f.agg) + f.input == full.state.messages + rest;
    SumAppend(full.state.messages, rest, BufOf);
    SumSnoc(b.output, full, FilledBufs);
    Rotate(FilledBufs(full), Sum(rest, BufOf), Sum(b.output, FilledBufs), Sum(b.workers, WorkerBufs));
  }

  lemma Rotate<T>(a: multiset<T>, b: multiset<T>, c: multiset<T>, d: multiset<T>)
    ensures b + ((c + a) + d) == (a + b) + (c + d)
  {}

  lemma EmitDelivers(f: Front, b: Back, full: Filled, agg: Aggregator)
    requires Delivering(f, b)
    ensures Delivering(f.(agg := agg, sent := f.sent + full.state.messages), b.(output := b.output + [full]))
  {
    SumSnoc(b.output, full, FilledMsgs);
  }

  lemma EmitBids(f: Front, b: Back, p: Pools, agg: Aggregator)
    requires BatchesOwned(f, b, p) && f.agg.Blocked?
    requires agg.Finished? || (agg.Ready? && agg.current.bid == f.agg.spare.bid)
    ensures BatchesOwned(f.(agg := agg, sent := f.sent + f.agg.full.state.messages),
                         b.(output := b.output + [f.agg.full]),
                         if agg.Finished? then p.(lostBatches := p.lostBatches + {f.agg.spare.bid}) else p)
  {
    var full, spare := BidOf(f.agg.full), BidOf(f.agg.spare);
    var queued, working := Sum(b.output, BidOf), Sum(b.workers, WorkerBids);
    hide Sum, Owns;
    SumSnoc(b.output, f.agg.full, BidOf);
    EmptyPlus((queued + full) + working);
    Exchange(full, spare, queued, working);
    if agg.Finished? {
      OwnsDrop(p.batches.Keys, p.lostBatches, p.nextBatch, (queued + full) + working, spare, {f.agg.spare.bid});
    }
  }

  lemma Exchange<T>(full: multiset<T>, spare: multiset<T>, queued: multiset<T>, working: multiset<T>)
    ensures (full + spare) + (queued + working) == spare + ((queued + full) + working)
    ensures (full + spare) + (queued + working) == ((queued + full) + working) + spare
  {}

  lemma EmitKeeps(s: State, step: Step)
    requires Inv(s) && step.Emit? && Enabled(s, step)
    ensures Inv(Apply(s, step))
  {
    hide Sum, Unsettled, Settled, HeldBids, HeldBufs, Owns, GoodWorker, Packed, InOrder, TryAdd;
    hide BatchesOwned, Delivering;
    var f := s.front;
    var agg := Apply(s, step).front.agg;
    if f.agg.after.Readd? {
      ReaddTakes(f);
    }
    EmptyIsPacked();
    SpareIsEmpty(f);
    assert HeldByAggregator(f.agg) == f.agg.full.state.messages + HeldByAggregator(agg);
    EmitInOrder(f, agg);
    EmitBufs(f, s.back, agg, f.agg.full);
    EmitDelivers(f, s.back, f.agg.full, agg);
    EmitBids(f, s.back, s.pools, agg);
  }

  lemma SpareIsEmpty(f: Front)
    requires InOrder(f) && f.agg.Blocked?
    ensures f.agg.spare.state == EMPTY
    ensures f.agg.after.Return? ==> f.input == [] && !f.inputOpen
  {}

  // Take

  /** Whatever is counted, taking a batch only moves the count from channel to worker. */
  lemma TakeKeepsSum<T>(b: Back, i: nat, w: Worker, queued: Filled -> multiset<T>, held: Worker -> multiset<T>)
    requires i < |b.workers| && b.output != [] && held(b.workers[i]) == multiset{}
    requires held(w) == queued(b.output[0])
    ensures Sum(b.output[1..], queued) + Sum(b.workers[i := w], held) == Sum(b.output, queued) + Sum(b.workers, held)
  {
    var first, rest, working := queued(b.output[0]), Sum(b.output[1..], queued), Sum(b.workers, held);
    SumHead(b.output, queued);
    SumGains(b.workers, i, w, held);
    assert rest + (working + first) == (first + rest) + working;
  }

  ghost predicate TakesBatch(w: Worker, batch: Filled) {
    w == if batch.state.messages == [] then Idle else Compiling(batch, 0, [])
  }

  lemma TakenCounts(w: Worker, batch: Filled)
    requires TakesBatch(w, batch)
    ensures WorkerMsgs(w) == FilledMsgs(batch) && WorkerBufs(w) == FilledBufs(batch)
    ensures WorkerEids(w) == multiset{}
  {
    assert Sum([], EidOf) == multiset{} && Sum([], BufOf) == multiset{};
  }

  lemma TakeBids(b: Back, i: nat, w: Worker)
    requires i < |b.workers| && b.workers[i].Idle? && b.output != [] && TakesBatch(w, b.output[0])
    ensures BackBids(b) == BackBids(WithWorker(b, i, w).(output := b.output[1..]))
                           + if w.Idle? then BidOf(b.output[0]) else multiset{}
  {
    var first, rest, working := BidOf(b.output[0]), Sum(b.output[1..], BidOf), Sum(b.workers, WorkerBids);
    SumHead(b.output, BidOf);
    if w.Idle? {
      SumSame(b.workers, i, w, WorkerBids);
      assert (first + rest) + working == (rest + working) + first;
    } else {
      TakeKeepsSum(b, i, w, BidOf, WorkerBids);
      EmptyPlus(BackBids(b));
    }
  }

  lemma TakeSettles(b: Back, i: nat, w: Worker)
    requires i < |b.workers| && b.workers[i].Idle? && b.output != [] && TakesBatch(w, b.output[0])
    ensures var c := WithWorker(b, i, w).(output := b.output[1..]);
            Unsettled(c) == Unsettled(b) && HeldEids(c) == HeldEids(b) && BackBufs(c) == BackBufs(b)
  {
    TakenCounts(w, b.output[0]);
    assert b.workers[i] == Idle;
    TakeKeepsSum(b, i, w, FilledMsgs, WorkerMsgs);
    TakeKeepsSum(b, i, w, FilledBufs, WorkerBufs);
    SumSame(b.workers, i, w, WorkerEids);
  }

  lemma TakeKeeps(s: State, step: Step)
    requires Inv(s) && step.Take? && Enabled(s, step)
    ensures Inv(Apply(s, step))
  {
    hide Sum, HeldByAggregator, AggregatorBids, Owns, Packed, InOrder, SplitAt, FilledBufs, FilledMsgs;
    hide BidOf, Unsettled, HeldEids, GoodWorker;
    var b, i, batch := s.back, step.i, s.back.output[0];
    var t := Apply(s, step);
    var w := t.back.workers[i];
    TakeBids(b, i, w);
    TakeGood(batch, w);
    if w.Idle? {
      Regroup(AggregatorBids(s.front.agg), BackBids(t.back), BidOf(batch));
      DropBatch(s.pools, HeldBids(t.front, t.back), batch);
    } else {
      EmptyPlus(BackBids(t.back));
    }
    TakeSettles(b, i, w);
  }

  lemma DropBatch(p: Pools, kept: multiset<nat>, batch: Filled)
    requires Owns(p.batches.Keys, p.lostBatches, p.nextBatch, kept + BidOf(batch))
    ensures Owns(p.batches.Keys, p.lostBatches + {batch.bid}, p.nextBatch, kept)
  {
    hide Owns;
    OwnsDrop(p.batches.Keys, p.lostBatches, p.nextBatch, kept, BidOf(batch), {batch.bid});
  }

  lemma TakeGood(batch: Filled, w: Worker)
    requires Packed(batch.state) && TakesBatch(w, batch)
    ensures GoodWorker(w)
  {
    FreshSplit(batch.state);
  }

  lemma FreshSplit(state: BatchState)
    requires Packed(state)
    ensures SplitAt(state.messages, 0, GroupsOf([]))
  {
    SplitEnds(state.messages);
  }
}
