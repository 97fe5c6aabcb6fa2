/**
 The producer as a state machine: callers of Put, the aggregate goroutine, the
 flush workers, Close, and the three object pools, interleaved step by step.
 Histories (`accepted`, `sent`, `acked`, `failed`, `lost`) record what happened.
 */
module Pipeline {
  import opened Bytes
  import opened Sizes
  import opened Packing
  import opened Batches
  import opened Flush
  import opened Sums

  const INPUT_BUFFER_SIZE := 100000
  const OUTPUT_BUFFER_SIZE := 100

  /** A pooled batch object with its current fields. */
  datatype Filled = Filled(bid: nat, state: BatchState)

  /** A pooled entry object that carries one encoded group. */
  datatype Out = Out(eid: nat, group: Group)

  datatype Worker =
    | Idle
    | Compiling(batch: Filled, done: nat, entries: seq<Out>)
    | Sending(request: seq<Out>)
    | Exited

  /** What the aggregate goroutine does once the output channel took its batch. */
  datatype After = Resume | Readd(m: Message) | Return

  datatype Aggregator =
    | NotStarted
    | Ready(current: Filled)
    | Blocked(full: Filled, spare: Filled, after: After)
    | Finished

  datatype Front = Front(
    accepted: seq<Message>,
    input: seq<Message>,
    inputOpen: bool,
    agg: Aggregator,
    sent: seq<Message>)

  datatype Back = Back(
    output: seq<Filled>,
    outputOpen: bool,
    workers: seq<Worker>,
    closed: bool,
    acked: multiset<Message>,
    failed: multiset<Message>,
    lost: multiset<Message>)

  /**
   Batches rest in their pool with whatever fields they were put back with. What
   is lost belongs to nobody any more: only the garbage collector sees it.
   */
  datatype Pools = Pools(
    bufs: set<nat>, nextBuf: nat,
    batches: map<nat, BatchState>, nextBatch: nat,
    entries: set<nat>, nextEntry: nat,
    lostBufs: set<nat>, lostBatches: set<nat>, lostEntries: set<nat>)

  datatype State = State(front: Front, back: Back, pools: Pools)

  const INITIAL := State(
    Front([], [], true, NotStarted, []),
    Back([], true, [], false, multiset{}, multiset{}, multiset{}),
    Pools({}, 0, map[], 0, {}, 0, {}, {}, {}))

  // Pools

  function Got(p: Pools, bid: nat): Filled {
    Filled(bid, if bid in p.batches then p.batches[bid] else EMPTY)
  }

  function AfterGet(p: Pools, bid: nat): Pools {
    p.(batches := p.batches - {bid}, nextBatch := NextAfter(p.batches.Keys, p.nextBatch, bid))
  }

  function Reset(b: BatchState): BatchState {
    b.(totalMessageSize := 0, entryMessageSize := 0, entryNumber := 0, messages := [], flushReason := Unset)
  }

  function BufIds(ms: seq<Message>): set<nat> { set m <- ms :: m.buf }
  function EntryIds(es: seq<Out>): set<nat> { set e <- es :: e.eid }

  /** Message buffers and the batch go back once the batch is compiled or given up. */
  function Released(p: Pools, b: Filled): Pools {
    p.(bufs := p.bufs + BufIds(b.state.messages), batches := p.batches[b.bid := Reset(b.state)])
  }

  // Steps

  datatype Step =
    | Put(data: seq<byte>, compressed: seq<byte>, buf: nat)
    | Start(workers: nat, bid: nat)
    | Receive(bid: nat)
    | Tick(bid: nat)
    | DrainInput(bid: nat)
    | Emit
    | Take(i: nat)
    | CompileEntry(i: nat, eid: nat, marshalled: bool)
    | Respond(i: nat, answer: Answer)
    | CloseInput
    | CloseOutput
    | Exit(i: nat)
    | CloseReturns
    | Collect(bufs: set<nat>, batches: set<nat>, entries: set<nat>)

  /** The size check of Put looks at the data before compression. */
  predicate PutAccepts(data: seq<byte>) {
    MessageProtoSize(|data|) + ENTRY_METADATA_SIZE <= MAX_ENTRY_SIZE
  }

  function Buffered(s: State, compressed: seq<byte>, buf: nat): Message {
    Message(|s.front.accepted|, buf, compressed)
  }

  predicate Enabled(s: State, step: Step) {
    var f, b, p := s.front, s.back, s.pools;
    match step
    case Put(data, _, buf) =>
      f.inputOpen && |f.input| < INPUT_BUFFER_SIZE && PutAccepts(data) && Available(p.bufs, p.nextBuf, buf)
    case Start(_, bid) => f.agg.NotStarted? && Available(p.batches.Keys, p.nextBatch, bid)
    case Receive(bid) => f.agg.Ready? && f.input != [] && Available(p.batches.Keys, p.nextBatch, bid)
    case Tick(bid) => f.agg.Ready? && Available(p.batches.Keys, p.nextBatch, bid)
    case DrainInput(bid) => f.agg.Ready? && !f.inputOpen && f.input == [] && Available(p.batches.Keys, p.nextBatch, bid)
    case Emit => f.agg.Blocked? && |b.output| < OUTPUT_BUFFER_SIZE
    case Take(i) => i < |b.workers| && b.workers[i].Idle? && b.output != []
    case CompileEntry(i, eid, _) =>
      i < |b.workers| && b.workers[i].Compiling? && b.workers[i].done < |b.workers[i].batch.state.messages|
      && Available(p.entries, p.nextEntry, eid)
    case Respond(i, answer) =>
      i < |b.workers| && b.workers[i].Sending?
      && (answer.Answered? && answer.failedCount != 0 ==> !LooksUpBeyond(|b.workers[i].request|, answer.codes))
    case CloseInput => !f.agg.NotStarted? && f.inputOpen
    case CloseOutput => f.agg.Finished? && b.outputOpen
    case Exit(i) => i < |b.workers| && b.workers[i].Idle? && !b.outputOpen && b.output == []
    case CloseReturns => !b.outputOpen && forall w <- b.workers :: w.Exited?
    case Collect(_, _, _) => true
  }

  function Flushing(b: Filled, reason: FlushReason): Filled { b.(state := b.state.(flushReason := reason)) }

  function AfterReceive(s: State, bid: nat): State
    requires Enabled(s, Receive(bid))
  {
    var f := s.front;
    var m := f.input[0];
    var attempt := TryAdd(f.agg.current.state, m);
    var rest := f.(input := f.input[1..]);
    if attempt.added then s.(front := rest.(agg := Ready(f.agg.current.(state := attempt.state))))
    else s.(front := rest.(agg := Blocked(Flushing(f.agg.current, Size), Got(s.pools, bid), Readd(m))),
            pools := AfterGet(s.pools, bid))
  }

  function AfterFlush(s: State, bid: nat, reason: FlushReason, after: After): State
    requires s.front.agg.Ready?
  {
    s.(front := s.front.(agg := Blocked(Flushing(s.front.agg.current, reason), Got(s.pools, bid), after)),
       pools := AfterGet(s.pools, bid))
  }

  function AfterEmit(s: State): State
    requires Enabled(s, Emit)
  {
    var a := s.front.agg;
    var next := match a.after
                case Resume => Ready(a.spare)
                case Readd(m) => Ready(a.spare.(state := TryAdd(a.spare.state, m).state))
                case Return => Finished;
    s.(front := s.front.(agg := next, sent := s.front.sent + a.full.state.messages),
       back := s.back.(output := s.back.output + [a.full]),
       pools := if a.after.Return? then s.pools.(lostBatches := s.pools.lostBatches + {a.spare.bid}) else s.pools)
  }

  function WithWorker(b: Back, i: nat, w: Worker): Back
    requires i < |b.workers|
  {
    b.(workers := b.workers[i := w])
  }

  /** An empty batch is dropped by the worker, without going back to its pool. */
  function AfterTake(s: State, i: nat): State
    requires Enabled(s, Take(i))
  {
    var batch := s.back.output[0];
    var w := if batch.state.messages == [] then Idle else Compiling(batch, 0, []);
    s.(back := WithWorker(s.back, i, w).(output := s.back.output[1..]),
       pools := if w.Idle? then s.pools.(lostBatches := s.pools.lostBatches + {batch.bid}) else s.pools)
  }

  function WithEntry(p: Pools, eid: nat): Pools {
    p.(entries := p.entries - {eid}, nextEntry := NextAfter(p.entries, p.nextEntry, eid))
  }

  /** A marshalling error gives back this entry, the entries before it, and the whole batch. */
  function GiveUp(s: State, i: nat, eid: nat): State
    requires i < |s.back.workers| && s.back.workers[i].Compiling?
  {
    var w := s.back.workers[i];
    var p := WithEntry(s.pools, eid);
    State(s.front,
          WithWorker(s.back, i, Idle).(failed := s.back.failed + multiset(w.batch.state.messages)),
          Released(p, w.batch).(entries := p.entries + ({eid} + EntryIds(w.entries))))
  }

  /** The next group goes into the entry; after the last one the batch itself is given back. */
  function AddEntry(s: State, i: nat, eid: nat): State
    requires i < |s.back.workers| && s.back.workers[i].Compiling?
    requires s.back.workers[i].done < |s.back.workers[i].batch.state.messages|
  {
    var w := s.back.workers[i];
    var ms := w.batch.state.messages;
    var p := WithEntry(s.pools, eid);
    var n := GreedyLen(ms[w.done..], ENTRY_METADATA_SIZE);
    var entries := w.entries + [Out(eid, ms[w.done..][..n])];
    if w.done + n < |ms| then
      State(s.front, WithWorker(s.back, i, Compiling(w.batch, w.done + n, entries)), p)
    else
      State(s.front, WithWorker(s.back, i, Sending(entries)), Released(p, w.batch))
  }

  ghost function OutMsgs(o: Out): multiset<Message> { multiset(o.group) }

  /** On return the entries still in the request go back to the pool; no others do. */
  ghost function Returned(s: State, i: nat, acked: seq<Out>, failed: seq<Out>, lost: seq<Out>): State
    requires i < |s.back.workers| && s.back.workers[i].Sending?
  {
    State(s.front,
          WithWorker(s.back, i, Idle).(acked := s.back.acked + Sum(acked, OutMsgs),
                                       failed := s.back.failed + Sum(failed, OutMsgs),
                                       lost := s.back.lost + Sum(lost, OutMsgs)),
          s.pools.(entries := s.pools.entries + EntryIds(s.back.workers[i].request)))
  }

  ghost function Retried(s: State, i: nat, codes: seq<bool>): State
    requires i < |s.back.workers| && s.back.workers[i].Sending?
  {
    var request := s.back.workers[i].request;
    State(s.front,
          WithWorker(s.back, i, Sending(Pick(request, codes, true))).(
            acked := s.back.acked + Sum(Pick(request, codes, false), OutMsgs),
            lost := s.back.lost + Sum(Unreported(request, codes), OutMsgs)),
          s.pools.(lostEntries := s.pools.lostEntries
                                  + (EntryIds(Pick(request, codes, false)) + EntryIds(Unreported(request, codes)))))
  }

  ghost function AfterRespond(s: State, i: nat, answer: Answer): State
    requires i < |s.back.workers| && s.back.workers[i].Sending?
  {
    var request := s.back.workers[i].request;
    match answer
    case Unreachable => Returned(s, i, [], request, [])
    case Answered(failedCount, codes) =>
      if failedCount == 0 then
        Returned(s, i, Pick(request, codes, false), [], Pick(request, codes, true) + Unreported(request, codes))
      else Retried(s, i, codes)
  }

  ghost function Apply(s: State, step: Step): State
    requires Enabled(s, step)
  {
    var f, b, p := s.front, s.back, s.pools;
    match step
    case Put(_, compressed, buf) =>
      var m := Buffered(s, compressed, buf);
      s.(front := f.(accepted := f.accepted + [m], input := f.input + [m]),
         pools := p.(bufs := p.bufs - {buf}, nextBuf := NextAfter(p.bufs, p.nextBuf, buf)))
    case Start(n, bid) =>
      s.(front := f.(agg := Ready(Got(p, bid))), back := b.(workers := seq(n, _ => Idle)), pools := AfterGet(p, bid))
    case Receive(bid) => AfterReceive(s, bid)
    case Tick(bid) => AfterFlush(s, bid, Interval, Resume)
    case DrainInput(bid) => AfterFlush(s, bid, Drain, Return)
    case Emit => AfterEmit(s)
    case Take(i) => AfterTake(s, i)
    case CompileEntry(i, eid, marshalled) => if marshalled then AddEntry(s, i, eid) else GiveUp(s, i, eid)
    case Respond(i, answer) => AfterRespond(s, i, answer)
    case CloseInput => s.(front := f.(inputOpen := false))
    case CloseOutput => s.(back := b.(outputOpen := false))
    case Exit(i) => s.(back := WithWorker(b, i, Exited))
    case CloseReturns => s.(back := b.(closed := true))
    case Collect(bufs, batches, entries) =>
      s.(pools := p.(bufs := p.bufs - bufs, batches := p.batches - batches, entries := p.entries - entries,
                     lostBufs := p.lostBufs + p.bufs * bufs,
                     lostBatches := p.lostBatches + p.batches.Keys * batches,
                     lostEntries := p.lostEntries + p.entries * entries))
  }

  /** The hypothesis on runs: what compression left in the buffer still fits an entry. */
  predicate Fitting(step: Step) {
    step.Put? ==> MessageProtoSize(|step.compressed|) + ENTRY_METADATA_SIZE <= MAX_ENTRY_SIZE
  }

  /** The service's contract, for the answers a run receives. */
  predicate Honest(s: State, step: Step) {
    step.Respond? && step.i < |s.back.workers| && s.back.workers[step.i].Sending? ==>
      Complies(|s.back.workers[step.i].request|, step.answer)
  }

  ghost predicate Reaches(s: State, steps: seq<Step>, t: State)
    decreases steps
  {
    if steps == [] then s == t
    else Fitting(steps[0]) && Enabled(s, steps[0]) && Reaches(Apply(s, steps[0]), steps[1..], t)
  }

  ghost predicate HonestRun(s: State, steps: seq<Step>)
    decreases steps
  {
    steps != [] ==> Enabled(s, steps[0]) && Honest(s, steps[0]) && HonestRun(Apply(s, steps[0]), steps[1..])
  }
}
