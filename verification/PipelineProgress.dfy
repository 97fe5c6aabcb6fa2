/** Once Close has begun: what can still happen, for how long, and when Close hangs instead. */
module PipelineProgress {
  import opened Sizes
  import opened Packing
  import opened Batches
  import opened Flush
  import opened Sums
  import opened Pipeline
  import opened PipelineInvariant
  import opened PipelineWorkers
  import opened PipelineTheorems

  /** Steps that bring Close nearer: not ticks, not retries, not the garbage collector. */
  predicate Productive(s: State, step: Step) {
    match step
    case Put(_, _, _) => false
    case Start(_, _) => false
    case Tick(_) => false
    case CloseInput => false
    case Collect(_, _, _) => false
    case Respond(_, answer) => answer.Unreachable? || answer.failedCount == 0
    case CloseReturns => !s.back.closed
    case _ => true
  }

  predicate CanProgress(s: State, step: Step) { Productive(s, step) && Enabled(s, step) }

  predicate Closing(s: State) { !s.front.inputOpen && !s.front.agg.NotStarted? }

  /** Nobody empties the output channel, it is full, and the aggregator waits to add a batch. */
  predicate Jammed(s: State) {
    s.back.workers == [] && s.front.agg.Blocked? && |s.back.output| >= OUTPUT_BUFFER_SIZE
  }

  lemma BusyWorkerProgresses(s: State, i: nat)
    requires Inv(s) && i < |s.back.workers| && (s.back.workers[i].Compiling? || s.back.workers[i].Sending?)
    ensures exists step :: CanProgress(s, step)
  {
    hide Inv;
    var w := s.back.workers[i];
    GoodWorkers(s, i);
    if w.Compiling? {
      assert CanProgress(s, CompileEntry(i, s.pools.nextEntry, true));
    } else {
      assert CanProgress(s, Respond(i, Unreachable));
    }
  }

  lemma IdleWorkerProgresses(s: State, i: nat)
    requires i < |s.back.workers| && s.back.workers[i].Idle? && (s.back.output != [] || !s.back.outputOpen)
    ensures exists step :: CanProgress(s, step)
  {
    if s.back.output != [] {
      assert CanProgress(s, Take(i));
    } else {
      assert CanProgress(s, Exit(i));
    }
  }

  lemma AggregatorProgresses(s: State)
    requires Inv(s) && Closing(s) && !Jammed(s) && !s.front.agg.Finished?
    ensures exists step :: CanProgress(s, step)
  {
    hide Inv;
    if s.front.agg.Ready? {
      if s.front.input != [] {
        assert CanProgress(s, Receive(s.pools.nextBatch));
      } else {
        assert CanProgress(s, DrainInput(s.pools.nextBatch));
      }
    } else if |s.back.output| < OUTPUT_BUFFER_SIZE {
      assert CanProgress(s, Emit);
    } else {
      WorkingWhileOpen(s, 0);
      if s.back.workers[0].Idle? {
        IdleWorkerProgresses(s, 0);
      } else {
        BusyWorkerProgresses(s, 0);
      }
    }
  }

  lemma WorkingWhileOpen(s: State, i: nat)
    requires Inv(s) && !s.front.agg.Finished? && i < |s.back.workers|
    ensures !s.back.workers[i].Exited?
  {}

  lemma WorkersProgress(s: State)
    requires Inv(s) && s.front.agg.Finished? && !s.back.closed
    ensures exists step :: CanProgress(s, step)
  {
    hide Inv;
    if s.back.outputOpen {
      assert CanProgress(s, CloseOutput);
    } else if i: nat :| i < |s.back.workers| && !s.back.workers[i].Exited? {
      if s.back.workers[i].Idle? {
        IdleWorkerProgresses(s, i);
      } else {
        BusyWorkerProgresses(s, i);
      }
    } else {
      assert forall w <- s.back.workers :: w.Exited?;
      assert CanProgress(s, CloseReturns);
    }
  }

  lemma OpenWhileWorking(s: State)
    requires Inv(s)
    ensures !s.front.agg.Finished? ==> s.back.outputOpen
    ensures s.back.closed ==> !s.back.outputOpen
  {}

  lemma JammedStops(s: State)
    requires Inv(s) && Jammed(s)
    ensures !(exists step :: CanProgress(s, step)) && !s.back.closed
  {
    hide Inv;
    OpenWhileWorking(s);
  }

  /** After Close has begun and until it returns, something productive can happen unless the channel is jammed. */
  lemma ProgressIff(steps: seq<Step>, s: State)
    requires Reaches(INITIAL, steps, s) && Closing(s) && !s.back.closed
    ensures (exists step :: CanProgress(s, step)) <==> !Jammed(s)
  {
    hide Inv, CanProgress, Reaches;
    Reached(steps, s);
    if Jammed(s) {
      JammedStops(s);
    } else if s.front.agg.Finished? {
      WorkersProgress(s);
    } else {
      AggregatorProgresses(s);
    }
  }

  // Productive steps run out

  function BatchPotential(b: Filled): nat { 2 + |b.state.messages| }

  function QueuePotential(bs: seq<Filled>): nat {
    if bs == [] then 0 else BatchPotential(bs[0]) + QueuePotential(bs[1..])
  }

  function WorkerPotential(w: Worker): nat {
    match w
    case Idle => 1
    case Compiling(batch, done, _) =>
      2 + if done <= |batch.state.messages| then |batch.state.messages| - done else 0
    case Sending(_) => 2
    case Exited => 0
  }

  function WorkersPotential(ws: seq<Worker>): nat {
    if ws == [] then 0 else WorkerPotential(ws[0]) + WorkersPotential(ws[1..])
  }

  function AggregatorPotential(a: Aggregator): nat {
    match a
    case NotStarted => 0
    case Ready(current) => 2 + BatchPotential(current)
    case Blocked(full, spare, after) =>
      1 + BatchPotential(full)
      + (match after
         case Resume => 2 + BatchPotential(spare)
         case Readd(_) => 3 + BatchPotential(spare)
         case Return => 0)
    case Finished => 0
  }

  /** An upper bound on the productive steps left. */
  function Potential(s: State): nat {
    8 * |s.front.input| + AggregatorPotential(s.front.agg)
    + QueuePotential(s.back.output) + WorkersPotential(s.back.workers)
    + (if s.back.outputOpen then 1 else 0) + if s.back.closed then 0 else 1
  }

  lemma {:induction false} QueueSnoc(bs: seq<Filled>, b: Filled)
    ensures QueuePotential(bs + [b]) == QueuePotential(bs) + BatchPotential(b)
  {
    if bs == [] {
      assert ([] + [b])[1..] == [];
    } else {
      QueueSnoc(bs[1..], b);
      assert (bs + [b])[1..] == bs[1..] + [b];
    }
  }

  lemma {:induction false} WorkersUpdate(ws: seq<Worker>, i: nat, w: Worker)
    requires i < |ws|
    ensures WorkersPotential(ws[i := w]) == WorkersPotential(ws) - WorkerPotential(ws[i]) + WorkerPotential(w)
    ensures WorkersPotential(ws) >= WorkerPotential(ws[i])
  {
    hide WorkerPotential;
    if i == 0 {
      assert ws[0 := w][1..] == ws[1..];
    } else {
      WorkersUpdate(ws[1..], i - 1, w);
      assert ws[i := w][1..] == ws[1..][i - 1 := w] && ws[1..][i - 1] == ws[i];
    }
  }

  lemma FrontStepDecreases(s: State, step: Step)
    requires Inv(s) && Enabled(s, step) && (step.Receive? || step.DrainInput? || step.Emit?)
    ensures Potential(Apply(s, step)) < Potential(s)
  {
    hide Sum, Owns, InOrder, Packed, GoodWorker, QueuePotential, WorkersPotential;
    match step
    case Receive(bid) =>
      assert bid in s.pools.batches ==> s.pools.batches[bid] == EMPTY;
      TryAddMessages(s.front.agg.current.state, s.front.input[0]);
    case DrainInput(bid) =>
      assert bid in s.pools.batches ==> s.pools.batches[bid] == EMPTY;
    case Emit =>
      QueueSnoc(s.back.output, s.front.agg.full);
      if s.front.agg.after.Readd? {
        TryAddMessages(s.front.agg.spare.state, s.front.agg.after.m);
      }
  }

  lemma TryAddMessages(b: BatchState, m: Message)
    ensures var a := TryAdd(b, m); |a.state.messages| == |b.messages| + if a.added then 1 else 0
  {}

  lemma NextGroupSize(w: Worker)
    requires GoodWorker(w) && w.Compiling?
    ensures 0 < GreedyLen(w.batch.state.messages[w.done..], ENTRY_METADATA_SIZE)
  {
    var ms := w.batch.state.messages;
    assert Fits(ms[w.done..][0]) by { assert ms[w.done] in ms; }
  }

  /** What a worker's step leaves to compare: its own potential and the queue's. */
  lemma WorkerDecreases(s: State, i: nat, w: Worker, c: Back)
    requires i < |s.back.workers| && c.workers == s.back.workers[i := w]
    requires c.outputOpen == s.back.outputOpen && c.closed == s.back.closed
    requires WorkerPotential(w) + QueuePotential(c.output)
             < WorkerPotential(s.back.workers[i]) + QueuePotential(s.back.output)
    ensures forall p :: Potential(State(s.front, c, p)) < Potential(s)
  {
    hide QueuePotential, WorkersPotential, WorkerPotential;
    WorkersUpdate(s.back.workers, i, w);
  }

  lemma TakeDecreases(s: State, i: nat)
    requires Enabled(s, Take(i))
    ensures Potential(AfterTake(s, i)) < Potential(s)
  {
    hide QueuePotential, WorkersPotential;
    QueueHead(s.back.output);
    var t := AfterTake(s, i);
    WorkerDecreases(s, i, t.back.workers[i], t.back);
    assert t == State(s.front, t.back, t.pools);
  }

  lemma CompileDecreases(s: State, i: nat, eid: nat, marshalled: bool)
    requires Enabled(s, CompileEntry(i, eid, marshalled)) && GoodWorker(s.back.workers[i])
    ensures Potential(if marshalled then AddEntry(s, i, eid) else GiveUp(s, i, eid)) < Potential(s)
  {
    hide QueuePotential, WorkersPotential, GreedyLen, Released, WithEntry;
    NextGroupSize(s.back.workers[i]);
    var t := if marshalled then AddEntry(s, i, eid) else GiveUp(s, i, eid);
    WorkerDecreases(s, i, t.back.workers[i], t.back);
    assert t == State(s.front, t.back, t.pools);
  }

  lemma RespondDecreases(s: State, i: nat, answer: Answer)
    requires Enabled(s, Respond(i, answer)) && (answer.Unreachable? || answer.failedCount == 0)
    ensures Potential(AfterRespond(s, i, answer)) < Potential(s)
  {
    hide QueuePotential, WorkersPotential, Sum, Pick, Unreported, EntryIds;
    var t := AfterRespond(s, i, answer);
    WorkerDecreases(s, i, Idle, t.back);
    assert t == State(s.front, t.back, t.pools);
  }

  lemma ExitDecreases(s: State, i: nat)
    requires Enabled(s, Exit(i))
    ensures Potential(s.(back := WithWorker(s.back, i, Exited))) < Potential(s)
  {
    hide QueuePotential, WorkersPotential;
    WorkerDecreases(s, i, Exited, WithWorker(s.back, i, Exited));
  }

  lemma WorkerStepDecreases(s: State, step: Step)
    requires Inv(s) && CanProgress(s, step) && OfWorker(step)
    ensures Potential(Apply(s, step)) < Potential(s)
  {
    hide Inv, Potential, AfterTake, AddEntry, GiveUp, AfterRespond;
    match step
    case Take(i) => TakeDecreases(s, i);
    case CompileEntry(i, eid, marshalled) =>
      GoodWorkers(s, i);
      CompileDecreases(s, i, eid, marshalled);
    case Respond(i, answer) => RespondDecreases(s, i, answer);
    case Exit(i) => ExitDecreases(s, i);
  }

  lemma GoodWorkers(s: State, i: nat)
    requires Inv(s) && i < |s.back.workers|
    ensures GoodWorker(s.back.workers[i])
  {
    hide GoodWorker;
    assert s.back.workers[i] in s.back.workers;
  }

  lemma QueueHead(bs: seq<Filled>)
    requires bs != []
    ensures QueuePotential(bs) == BatchPotential(bs[0]) + QueuePotential(bs[1..])
  {}

  lemma ProductiveDecreases(s: State, step: Step)
    requires Inv(s) && CanProgress(s, step)
    ensures Potential(Apply(s, step)) < Potential(s)
  {
    hide Inv, Apply, Potential;
    if OfWorker(step) {
      WorkerStepDecreases(s, step);
    } else if step.Receive? || step.DrainInput? || step.Emit? {
      FrontStepDecreases(s, step);
    } else {
      ClosingDecreases(s, step);
    }
  }

  lemma ClosingDecreases(s: State, step: Step)
    requires CanProgress(s, step) && (step.CloseOutput? || step.CloseReturns?)
    ensures Potential(Apply(s, step)) < Potential(s)
  {}

  ghost predicate ProductiveRun(s: State, steps: seq<Step>)
    decreases |steps|
  {
    steps != [] ==> CanProgress(s, steps[0]) && ProductiveRun(Apply(s, steps[0]), steps[1..])
  }

  /** From any reachable state no run of productive steps is longer than its potential. */
  lemma ProductiveRunsEnd(before: seq<Step>, s: State, steps: seq<Step>)
    requires Reaches(INITIAL, before, s) && ProductiveRun(s, steps)
    ensures |steps| <= Potential(s)
  {
    Reached(before, s);
    ProductiveRunsEndFrom(s, steps);
  }

  lemma {:induction false} ProductiveRunsEndFrom(s: State, steps: seq<Step>)
    requires Inv(s) && ProductiveRun(s, steps)
    ensures |steps| <= Potential(s)
    decreases |steps|
  {
    hide Inv, Apply, Enabled, Potential;
    if steps != [] {
      StepKeeps(s, steps[0]);
      ProductiveDecreases(s, steps[0]);
      ProductiveRunsEndFrom(Apply(s, steps[0]), steps[1..]);
    }
  }

  // Close returns

  lemma ClosingStays(s: State, step: Step)
    requires CanProgress(s, step) && Closing(s)
    ensures Closing(Apply(s, step))
    ensures s.back.workers != [] ==> Apply(s, step).back.workers != []
  {
    hide Apply, Enabled;
    if OfWorker(step) {
      WorkerStepFrame(s, step);
    } else {
      OtherStepFrame(s, step);
      InputStaysClosed(s, step);
    }
  }

  lemma InputStaysClosed(s: State, step: Step)
    requires CanProgress(s, step) && !OfWorker(step) && !s.front.inputOpen
    ensures !Apply(s, step).front.inputOpen
  {
    hide TryAdd;
  }

  lemma SomeProgress(s: State) returns (step: Step)
    requires Inv(s) && Closing(s) && !s.back.closed && !Jammed(s)
    ensures CanProgress(s, step)
  {
    hide Inv, CanProgress;
    if s.front.agg.Finished? {
      WorkersProgress(s);
    } else {
      AggregatorProgresses(s);
    }
    step :| CanProgress(s, step);
  }

  /**
   With a flush worker, Close can always be completed from wherever a run has
   brought it. No way there is endless: see `ProductiveRunsEnd`.
   */
  lemma CloseCanReturn(before: seq<Step>, s: State)
    requires Reaches(INITIAL, before, s) && Closing(s) && s.back.workers != []
    ensures exists steps, t :: Reaches(s, steps, t) && t.back.closed
  {
    Reached(before, s);
    CloseCanReturnFrom(s);
  }

  lemma {:induction false} CloseCanReturnFrom(s: State)
    requires Inv(s) && Closing(s) && s.back.workers != []
    ensures exists steps, t :: Reaches(s, steps, t) && t.back.closed
    decreases Potential(s)
  {
    hide Inv, Apply, Enabled, Potential;
    if s.back.closed {
      assert Reaches(s, [], s);
    } else {
      var step := SomeProgress(s);
      ProductiveDecreases(s, step);
      StepKeeps(s, step);
      ClosingStays(s, step);
      CloseCanReturnFrom(Apply(s, step));
      var steps, t :| Reaches(Apply(s, step), steps, t) && t.back.closed;
      ReachesCons(s, step, Apply(s, step), steps, t);
      assert Reaches(s, [step] + steps, t);
    }
  }

  // Close hangs

  lemma JammedStays(s: State, step: Step)
    requires Jammed(s) && Enabled(s, step)
    ensures Jammed(Apply(s, step)) && Apply(s, step).back.closed == (s.back.closed || step.CloseReturns?)
  {}

  /** A jammed producer stays jammed: whatever happens then, Close never returns. */
  lemma JammedForever(before: seq<Step>, s: State, steps: seq<Step>, t: State)
    requires Reaches(INITIAL, before, s) && Jammed(s) && Reaches(s, steps, t)
    ensures Jammed(t) && !t.back.closed
  {
    Reached(before, s);
    JammedForeverFrom(s, steps, t);
  }

  lemma {:induction false} JammedForeverFrom(s: State, steps: seq<Step>, t: State)
    requires Inv(s) && Jammed(s) && Reaches(s, steps, t)
    ensures Jammed(t) && !t.back.closed
    decreases |steps|
  {
    hide Inv, Apply, Enabled;
    OpenWhileWorking(s);
    if steps != [] {
      JammedStays(s, steps[0]);
      StepKeeps(s, steps[0]);
      JammedForeverFrom(Apply(s, steps[0]), steps[1..], t);
    }
  }

  /** An interval's flush of a batch nobody has put anything in. */
  function Ticked(bid: nat): Filled { Filled(bid, EMPTY.(flushReason := Interval)) }

  function Unattended(k: nat): Back {
    Back(seq(k, i requires 0 <= i < k => Ticked(i)), true, [], false, multiset{}, multiset{}, multiset{})
  }

  /** No flush worker, k intervals after the start. */
  function Idling(k: nat, open: bool, agg: Aggregator, next: nat): State {
    State(Front([], [], open, agg, []), Unattended(k), Pools({}, 0, map[], next, {}, 0, {}, {}, {}))
  }

  function Quiet(k: nat): State { Idling(k, true, Ready(Filled(k, EMPTY)), k + 1) }

  function Full(k: nat, open: bool): State {
    Idling(k, open, Blocked(Ticked(k), Filled(k + 1, EMPTY), Resume), k + 2)
  }

  lemma QuietSteps(k: nat)
    ensures Leads(Quiet(k), Tick(k + 1), Full(k, true))
    ensures k < OUTPUT_BUFFER_SIZE ==> Leads(Full(k, true), Emit, Quiet(k + 1))
  {
    assert AfterGet(Quiet(k).pools, k + 1) == Full(k, true).pools;
    assert Unattended(k).output + [Ticked(k)] == Unattended(k + 1).output;
  }

  lemma QuietStart()
    ensures Leads(INITIAL, Start(0, 0), Quiet(0))
  {
    assert seq(0, _ => Idle) == [] && Unattended(0).output == [];
    assert AfterGet(INITIAL.pools, 0) == Quiet(0).pools;
  }

  lemma {:induction false} ReachesSnoc(s: State, steps: seq<Step>, t: State, step: Step, u: State)
    requires Reaches(s, steps, t) && Leads(t, step, u)
    ensures Reaches(s, steps + [step], u)
    decreases |steps|
  {
    hide Apply, Enabled;
    if steps == [] {
      assert ([] + [step])[1..] == [];
    } else {
      ReachesSnoc(Apply(s, steps[0]), steps[1..], t, step, u);
      assert (steps + [step])[1..] == steps[1..] + [step];
    }
  }

  lemma {:induction false} QuietReached(k: nat) returns (steps: seq<Step>)
    requires k <= OUTPUT_BUFFER_SIZE
    ensures Reaches(INITIAL, steps, Quiet(k))
  {
    hide Leads, Quiet, Full, Reaches;
    if k == 0 {
      QuietStart();
      NoSteps(INITIAL);
      ReachesSnoc(INITIAL, [], INITIAL, Start(0, 0), Quiet(0));
      steps := [] + [Start(0, 0)];
    } else {
      var before := QuietReached(k - 1);
      QuietSteps(k - 1);
      ReachesSnoc(INITIAL, before, Quiet(k - 1), Tick(k), Full(k - 1, true));
      ReachesSnoc(INITIAL, before + [Tick(k)], Full(k - 1, true), Emit, Quiet(k));
      steps := before + [Tick(k)] + [Emit];
    }
  }

  lemma FullIsJammed()
    ensures Jammed(Full(OUTPUT_BUFFER_SIZE, false)) && Closing(Full(OUTPUT_BUFFER_SIZE, false))
    ensures Leads(Full(OUTPUT_BUFFER_SIZE, true), CloseInput, Full(OUTPUT_BUFFER_SIZE, false))
  {}

  /** It happens: with no flush workers, an idle producer fills the channel with empty batches, and Close hangs. */
  lemma CloseCanHang()
    ensures exists steps, s :: Reaches(INITIAL, steps, s) && Closing(s) && Jammed(s)
  {
    hide Leads, Quiet, Full, Reaches, Jammed, Closing;
    var n := OUTPUT_BUFFER_SIZE;
    var before := QuietReached(n);
    QuietSteps(n);
    ReachesSnoc(INITIAL, before, Quiet(n), Tick(n + 1), Full(n, true));
    FullIsJammed();
    ReachesSnoc(INITIAL, before + [Tick(n + 1)], Full(n, true), CloseInput, Full(n, false));
    assert Reaches(INITIAL, before + [Tick(n + 1)] + [CloseInput], Full(n, false));
  }
}
