/** What single steps do, and what runs make of them: queue order, tallies, and what the pools lose. */
module PipelineHistory {
  import opened Bytes
  import opened Sizes
  import opened Packing
  import opened Batches
  import opened Flush
  import opened Sums
  import opened Pipeline
  import opened PipelineInvariant
  import opened PipelineWorkers
  import T = PipelineTheorems

  /** Put takes data of up to 51141 bytes, and queues just this message behind the others. */
  lemma PutMeaning(s: State, data: seq<byte>, compressed: seq<byte>, buf: nat)
    ensures PutAccepts(data) <==> |data| <= 51141
    ensures Enabled(s, Put(data, compressed, buf)) ==>
              var t := Apply(s, Put(data, compressed, buf));
              && t.back == s.back && t.front.agg == s.front.agg && t.front.sent == s.front.sent
              && exists m: Message :: m == Message(|s.front.accepted|, buf, compressed)
                                      && t.front.accepted == s.front.accepted + [m]
                                      && t.front.input == s.front.input + [m]
  {
    var m := Message(|s.front.accepted|, buf, compressed);
    assert m == m;
  }

  /** Starting gives the asked number of idle workers and an empty batch; the queued messages stay. */
  lemma StartMeaning(s: State, n: nat, bid: nat)
    requires Inv(s) && Enabled(s, Start(n, bid))
    ensures var t := Apply(s, Start(n, bid));
            && |t.back.workers| == n && (forall w <- t.back.workers :: w == Idle)
            && t.front == s.front.(agg := Ready(Filled(bid, EMPTY)))
            && t.back.output == s.back.output == []
  {
    hide InOrder, Delivering, Owns;
  }

  // Queue order

  ghost function QueuedMsgs(queue: seq<Filled>): seq<Message> {
    if queue == [] then [] else queue[0].state.messages + QueuedMsgs(queue[1..])
  }

  lemma {:induction false} QueuedSnoc(queue: seq<Filled>, b: Filled)
    ensures QueuedMsgs(queue + [b]) == QueuedMsgs(queue) + b.state.messages
  {
    if queue == [] {
      assert [] + [b] == [b] && [b][1..] == [];
      assert QueuedMsgs([b]) == b.state.messages + QueuedMsgs([]);
    } else {
      assert (queue + [b])[1..] == queue[1..] + [b];
      QueuedSnoc(queue[1..], b);
    }
  }

  /** The messages a flush worker starts to compile in this step. */
  ghost function TakenNow(s: State, step: Step): seq<Message>
    requires Enabled(s, step)
  {
    if !step.Take? then []
    else
      var w := Apply(s, step).back.workers[step.i];
      if w.Compiling? then w.batch.state.messages else []
  }

  /** The messages the flush workers took in a run, in the order they took them. */
  ghost function Taken(s: State, steps: seq<Step>): seq<Message>
    decreases steps
  {
    if steps == [] || !Enabled(s, steps[0]) then []
    else TakenNow(s, steps[0]) + Taken(Apply(s, steps[0]), steps[1..])
  }

  lemma QueueStep(s: State, step: Step)
    requires Enabled(s, step)
    ensures var t := Apply(s, step);
            exists gone :: s.front.sent + gone == t.front.sent
                           && QueuedMsgs(s.back.output) + gone == TakenNow(s, step) + QueuedMsgs(t.back.output)
  {
    hide QueuedMsgs, AddEntry, GiveUp, AfterRespond, TryAdd;
    var t := Apply(s, step);
    var gone: seq<Message> := if step.Emit? then s.front.agg.full.state.messages else [];
    if step.Emit? {
      QueuedSnoc(s.back.output, s.front.agg.full);
    } else if step.Take? {
      TakeQueue(s, step.i);
    } else if T.OfWorker(step) {
      WorkerLeavesQueue(s, step);
    }
    assert s.front.sent + gone == t.front.sent;
  }

  lemma TakeQueue(s: State, i: nat)
    requires Enabled(s, Take(i))
    ensures QueuedMsgs(s.back.output) == TakenNow(s, Take(i)) + QueuedMsgs(Apply(s, Take(i)).back.output)
  {}

  lemma WorkerLeavesQueue(s: State, step: Step)
    requires Enabled(s, step) && T.OfWorker(step) && !step.Take?
    ensures Apply(s, step).front == s.front && Apply(s, step).back.output == s.back.output
  {
    hide Sum, Pick, Unreported, EntryIds, BufIds;
  }

  /** Whatever the interleaving, the workers take the messages that entered the channel first. */
  lemma {:induction false} FirstInFirstOut(s: State, steps: seq<Step>, t: State)
    requires Reaches(s, steps, t)
    ensures exists gone :: s.front.sent + gone == t.front.sent
                           && QueuedMsgs(s.back.output) + gone == Taken(s, steps) + QueuedMsgs(t.back.output)
    decreases steps
  {
    hide Apply, Enabled, TakenNow, QueuedMsgs;
    var before, after := QueuedMsgs(s.back.output), QueuedMsgs(t.back.output);
    if steps == [] {
      assert s.front.sent + [] == t.front.sent && before + [] == Taken(s, steps) + after;
    } else {
      var u := Apply(s, steps[0]);
      QueueStep(s, steps[0]);
      FirstInFirstOut(u, steps[1..], t);
      var now :| s.front.sent + now == u.front.sent
                 && before + now == TakenNow(s, steps[0]) + QueuedMsgs(u.back.output);
      var later :| u.front.sent + later == t.front.sent
                   && QueuedMsgs(u.back.output) + later == Taken(u, steps[1..]) + after;
      Chain(s.front.sent, now, later);
      Chain(before, now, later);
      Chain(TakenNow(s, steps[0]), QueuedMsgs(u.back.output), later);
      Chain(TakenNow(s, steps[0]), Taken(u, steps[1..]), after);
      assert s.front.sent + (now + later) == t.front.sent;
    }
  }

  lemma Chain<T>(a: seq<T>, b: seq<T>, c: seq<T>)
    ensures (a + b) + c == a + (b + c)
  {}

  /** Acceptance order reaches the workers: what they took, and then what waits on each stage. */
  lemma TakenInOrder(steps: seq<Step>, t: State)
    requires Reaches(INITIAL, steps, t)
    ensures t.front.accepted
            == Taken(INITIAL, steps) + QueuedMsgs(t.back.output) + HeldByAggregator(t.front.agg) + t.front.input
  {
    hide Taken;
    FirstInFirstOut(INITIAL, steps, t);
    T.AcceptanceOrder(steps, t);
  }

  ghost predicate Bounded(s: State) { |s.front.input| <= 100000 && |s.back.output| <= 100 }

  lemma StepBounds(s: State, step: Step)
    requires Bounded(s) && Enabled(s, step)
    ensures Bounded(Apply(s, step))
  {
    hide AddEntry, GiveUp, AfterRespond, TryAdd;
    if T.OfWorker(step) && !step.Take? {
      WorkerLeavesQueue(s, step);
    }
  }

  /** Neither channel ever holds more than its capacity. */
  lemma {:induction false} ChannelBounds(s: State, steps: seq<Step>, t: State)
    requires Reaches(s, steps, t) && Bounded(s)
    ensures Bounded(t)
    decreases steps
  {
    hide Apply, Enabled, Bounded;
    if steps != [] {
      StepBounds(s, steps[0]);
      ChannelBounds(Apply(s, steps[0]), steps[1..], t);
    }
  }

  // Tallies

  /** Only an answer, or an entry that cannot be marshalled, settles messages; the latter fails the whole batch. */
  lemma SettledBy(s: State, step: Step)
    requires Enabled(s, step) && !step.Respond?
    ensures var b, c := s.back, Apply(s, step).back;
            && c.acked == b.acked && c.lost == b.lost
            && c.failed == b.failed + if step.CompileEntry? && !step.marshalled
                                      then multiset(b.workers[step.i].batch.state.messages) else multiset{}
  {
    hide TryAdd, GreedyLen, BufIds, EntryIds;
    match step
    case CompileEntry(_, _, _) =>
    case Emit =>
    case Receive(_) =>
    case _ =>
  }

  // What the pools lose

  predicate Refused(step: Step) { step.Respond? && step.answer.Answered? && step.answer.failedCount != 0 }

  /** Buffers are lost to the garbage collector alone; entries also when a request is sent again. */
  lemma LosesOnly(s: State, step: Step)
    requires Enabled(s, step) && !step.Collect?
    ensures Apply(s, step).pools.lostBufs == s.pools.lostBufs
    ensures !Refused(step) ==> Apply(s, step).pools.lostEntries == s.pools.lostEntries
    ensures Apply(s, step).pools.lostBatches
            == s.pools.lostBatches
               + (if step.Take? && s.back.output[0].state.messages == [] then {s.back.output[0].bid}
                  else if step.Emit? && s.front.agg.after.Return? then {s.front.agg.spare.bid} else {})
  {
    hide TryAdd, GreedyLen, BufIds, EntryIds, Sum, Pick, Unreported;
    match step
    case Respond(_, _) =>
    case CompileEntry(_, _, _) =>
    case Emit =>
    case Receive(_) =>
    case _ =>
  }

  ghost predicate Uncollected(steps: seq<Step>) { forall step <- steps :: !step.Collect? }
  ghost predicate NeverRefused(steps: seq<Step>) { forall step <- steps :: !Refused(step) }

  lemma {:induction false} LosesNothing(s: State, steps: seq<Step>, t: State)
    requires Reaches(s, steps, t) && Uncollected(steps)
    ensures t.pools.lostBufs == s.pools.lostBufs
    ensures NeverRefused(steps) ==> t.pools.lostEntries == s.pools.lostEntries
    decreases steps
  {
    hide Apply, Enabled, Refused;
    if steps != [] {
      LosesOnly(s, steps[0]);
      LosesNothing(Apply(s, steps[0]), steps[1..], t);
    }
  }

  lemma {:induction false} ExitedOwnNothing(ws: seq<Worker>)
    requires forall w <- ws :: w.Exited?
    ensures Sum(ws, WorkerBufs) == multiset{} && Sum(ws, WorkerEids) == multiset{}
  {
    if ws != [] {
      assert ws[0] in ws;
      assert ws[0] == Exited && Sum([], EidOf) == multiset{};
      ExitedOwnNothing(ws[1..]);
    }
  }

  /**
   When Close has returned, with a flush worker and no garbage collection, every
   message buffer ever made rests in its pool; so does every entry, unless a
   request had to be sent again.
   */
  lemma CloseReturnsBuffers(steps: seq<Step>, t: State)
    requires Reaches(INITIAL, steps, t) && Uncollected(steps)
    requires t.back.closed && t.back.workers != []
    ensures forall x: nat :: x in t.pools.bufs <==> x < t.pools.nextBuf
    ensures NeverRefused(steps) ==> forall x: nat :: x in t.pools.entries <==> x < t.pools.nextEntry
  {
    hide Reaches, Inv, Owns;
    LosesNothing(INITIAL, steps, t);
    T.CloseSettlesAll(steps, t);
    T.PoolsSound(steps, t);
    ExitedOwnNothing(t.back.workers);
    NothingHeld(t);
    AllFree(t.pools.bufs, t.pools.lostBufs, t.pools.nextBuf);
    if NeverRefused(steps) {
      AllFree(t.pools.entries, t.pools.lostEntries, t.pools.nextEntry);
    }
  }

  lemma NothingHeld(t: State)
    requires t.front.input == [] && HeldByAggregator(t.front.agg) == [] && t.back.output == []
    requires Sum(t.back.workers, WorkerBufs) == multiset{} && Sum(t.back.workers, WorkerEids) == multiset{}
    ensures HeldBufs(t.front, t.back) == multiset{} && HeldEids(t.back) == multiset{}
  {}

  lemma AllFree(free: set<nat>, lost: set<nat>, next: nat)
    requires Owns(free, lost, next, multiset{}) && lost == {}
    ensures forall x: nat :: x in free <==> x < next
  {}
}
