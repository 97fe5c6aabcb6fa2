/** What holds in every run of the producer. */
module PipelineTheorems {
  import opened Bytes
  import opened Sizes
  import opened Packing
  import opened Batches
  import opened Compiler
  import opened Flush
  import opened Sums
  import opened Pipeline
  import opened PipelineInvariant
  import opened PipelineWorkers
  import W = Workers

  lemma Reached(steps: seq<Step>, t: State)
    requires Reaches(INITIAL, steps, t)
    ensures Inv(t)
  {
    InvInitially();
    RunKeeps(INITIAL, steps, t);
  }

  /** Batches leave the aggregator in acceptance order, and nothing is dropped on the way. */
  lemma AcceptanceOrder(steps: seq<Step>, t: State)
    requires Reaches(INITIAL, steps, t)
    ensures t.front.accepted == t.front.sent + HeldByAggregator(t.front.agg) + t.front.input
    ensures forall i :: 0 <= i < |t.front.accepted| ==> t.front.accepted[i].id == i
  {
    Reached(steps, t);
  }

  /** The input channel, the aggregator, the output channel, the workers, and the settled messages. */
  ghost function AllPlaces(s: State): multiset<Message> {
    multiset(s.front.input) + multiset(HeldByAggregator(s.front.agg)) + Unsettled(s.back) + Settled(s.back)
  }

  lemma {:induction false} NumberedOnce(ms: seq<Message>, base: nat, k: nat)
    requires k < |ms| && forall i :: 0 <= i < |ms| ==> ms[i].id == base + i
    ensures multiset(ms)[ms[k]] == 1
  {
    assert ms == [ms[0]] + ms[1..];
    forall x <- ms[1..] ensures x.id > base {
      var j :| 0 <= j < |ms| - 1 && ms[1..][j] == x;
      assert ms[j + 1].id == base + j + 1;
    }
    if k > 0 {
      assert ms[1..][k - 1] == ms[k];
      NumberedOnce(ms[1..], base + 1, k - 1);
    }
  }

  lemma NumberedAreDistinct(ms: seq<Message>)
    requires forall i :: 0 <= i < |ms| ==> ms[i].id == i
    ensures forall m <- ms :: multiset(ms)[m] == 1
  {
    forall m <- ms ensures multiset(ms)[m] == 1 {
      var k :| 0 <= k < |ms| && ms[k] == m;
      NumberedOnce(ms, 0, k);
    }
  }

  /** Conservation: in every run each accepted message is in exactly one place, and nothing else is anywhere. */
  lemma ExactlyOnePlace(steps: seq<Step>, t: State)
    requires Reaches(INITIAL, steps, t)
    ensures AllPlaces(t) == multiset(t.front.accepted)
    ensures forall m <- t.front.accepted :: AllPlaces(t)[m] == 1
  {
    hide Unsettled, Settled, HeldByAggregator, Inv, Reaches;
    var f := t.front;
    AcceptanceOrder(steps, t);
    assert multiset(f.sent) == Unsettled(t.back) + Settled(t.back) by {
      Reached(steps, t);
      InvDelivers(t);
    }
    NumberedAreDistinct(f.accepted);
  }

  lemma {:induction false} ExitedHoldNothing(ws: seq<Worker>)
    requires forall k :: 0 <= k < |ws| ==> ws[k].Exited?
    ensures Sum(ws, WorkerMsgs) == multiset{}
  {
    if ws != [] {
      ExitedHoldNothing(ws[1..]);
    }
  }

  /** Once Close has returned, every accepted message is settled; at least one flush worker is needed. */
  lemma CloseSettlesAll(steps: seq<Step>, t: State)
    requires Reaches(INITIAL, steps, t) && t.back.closed && t.back.workers != []
    ensures t.front.input == [] && HeldByAggregator(t.front.agg) == [] && t.back.output == []
    ensures forall w <- t.back.workers :: w.Exited?
    ensures multiset(t.front.accepted) == Settled(t.back)
  {
    Reached(steps, t);
    assert t.back.workers[0].Exited? by { assert t.back.workers[0] in t.back.workers; }
    ExitedHoldNothing(t.back.workers);
    ExactlyOnePlace(steps, t);
    assert Sum(t.back.output, FilledMsgs) == multiset{};
  }

  /** With a service that honours its contract, no acknowledgement is missed. */
  lemma {:induction false} HonestRunLosesNothing(s: State, steps: seq<Step>, t: State)
    requires Reaches(s, steps, t) && HonestRun(s, steps)
    ensures t.back.lost == s.back.lost
    decreases steps
  {
    if steps != [] {
      HonestStep(s, steps[0]);
      HonestRunLosesNothing(Apply(s, steps[0]), steps[1..], t);
    }
  }

  lemma HonestStep(s: State, step: Step)
    requires Enabled(s, step) && Honest(s, step)
    ensures Apply(s, step).back.lost == s.back.lost
  {
    if step.Respond? && step.answer.Answered? {
      var request, codes := s.back.workers[step.i].request, step.answer.codes;
      PickLength(request, codes);
      assert Unreported(request, codes) == [];
      EmptyPlus(s.back.lost);
      SumOfNone();
    } else if step.Respond? {
      SumOfNone();
      EmptyPlus(s.back.lost);
    }
  }

  lemma SumOfNone()
    ensures Sum([], OutMsgs) == multiset{}
  {}

  /** Every accepted message of an honest closed run was acknowledged or reported as failed, exactly once. */
  lemma HonestCloseDelivers(steps: seq<Step>, t: State)
    requires Reaches(INITIAL, steps, t) && HonestRun(INITIAL, steps)
    requires t.back.closed && t.back.workers != []
    ensures multiset(t.front.accepted) == t.back.acked + t.back.failed
  {
    CloseSettlesAll(steps, t);
    HonestRunLosesNothing(INITIAL, steps, t);
    EmptyPlus(t.back.acked + t.back.failed);
  }

  /** Every request a worker holds, first attempt or retry, respects the service's limits. */
  lemma RequestsWithinLimits(steps: seq<Step>, t: State, i: nat)
    requires Reaches(INITIAL, steps, t) && i < |t.back.workers| && t.back.workers[i].Sending?
    ensures var request := t.back.workers[i].request;
            && |request| <= MAX_REACHABLE_ENTRIES < MAX_ENTRIES_PER_REQUEST
            && OutBytes(request) <= MAX_REQUEST_SIZE
            && forall o <- request :: ENTRY_METADATA_SIZE + TotalSize(o.group) <= MAX_ENTRY_SIZE
  {
    Reached(steps, t);
    assert GoodWorker(t.back.workers[i]) by { assert t.back.workers[i] in t.back.workers; }
  }

  /**
   Every pooled object ever made has exactly one place: it rests in its pool, is
   held by exactly one owner in flight, or was lost; and pooled batches are pristine.
   */
  lemma PoolsSound(steps: seq<Step>, t: State)
    requires Reaches(INITIAL, steps, t)
    ensures Owns(t.pools.bufs, t.pools.lostBufs, t.pools.nextBuf, HeldBufs(t.front, t.back))
    ensures Owns(t.pools.batches.Keys, t.pools.lostBatches, t.pools.nextBatch, HeldBids(t.front, t.back))
    ensures Owns(t.pools.entries, t.pools.lostEntries, t.pools.nextEntry, HeldEids(t.back))
    ensures forall bid <- t.pools.batches :: t.pools.batches[bid] == EMPTY
  {
    Reached(steps, t);
  }

  ghost predicate NobodySettles(s: State) {
    && (s.front.agg.NotStarted? ==> s.back.workers == [])
    && (s.back.workers == [] ==> Settled(s.back) == multiset{})
  }

  /** The steps a flush worker takes. */
  predicate OfWorker(step: Step) { step.Take? || step.CompileEntry? || step.Respond? || step.Exit? }

  /** Only worker i changes, and what the worker takes from the queue or settles. */
  ghost predicate OnlyWorker(s: State, t: State, i: nat) {
    && i < |s.back.workers| == |t.back.workers| && t.back.workers == s.back.workers[i := t.back.workers[i]]
    && t.front == s.front && t.back.outputOpen == s.back.outputOpen && t.back.closed == s.back.closed
  }

  lemma RespondFrame(s: State, i: nat, answer: Answer)
    requires i < |s.back.workers| && s.back.workers[i].Sending?
    ensures OnlyWorker(s, AfterRespond(s, i, answer), i)
  {
    hide Sum, Pick, Unreported, EntryIds;
  }

  lemma CompileFrame(s: State, i: nat, eid: nat, marshalled: bool)
    requires Enabled(s, CompileEntry(i, eid, marshalled))
    ensures OnlyWorker(s, if marshalled then AddEntry(s, i, eid) else GiveUp(s, i, eid), i)
  {
    hide GreedyLen, BufIds, EntryIds, WithEntry, Released;
  }

  function WorkerOf(step: Step): nat
    requires OfWorker(step)
  {
    match step
    case Take(i) => i
    case CompileEntry(i, _, _) => i
    case Respond(i, _) => i
    case Exit(i) => i
  }

  lemma WorkerStepFrame(s: State, step: Step)
    requires Enabled(s, step) && OfWorker(step)
    ensures OnlyWorker(s, Apply(s, step), WorkerOf(step))
  {
    hide AddEntry, GiveUp, AfterRespond;
    match step
    case CompileEntry(i, eid, marshalled) => CompileFrame(s, i, eid, marshalled);
    case Respond(i, answer) => RespondFrame(s, i, answer);
    case _ =>
  }

  lemma OtherStepFrame(s: State, step: Step)
    requires Enabled(s, step) && !OfWorker(step)
    ensures Settled(Apply(s, step).back) == Settled(s.back)
    ensures !step.Start? ==> Apply(s, step).back.workers == s.back.workers
    ensures Apply(s, step).front.agg.NotStarted? ==> s.front.agg.NotStarted? && !step.Start?
  {
    hide TryAdd;
    match step
    case Emit =>
    case Receive(_) =>
    case _ =>
  }

  lemma NobodySettlesStep(s: State, step: Step)
    requires NobodySettles(s) && Enabled(s, step)
    ensures NobodySettles(Apply(s, step))
  {
    hide Apply, Settled;
    if OfWorker(step) {
      WorkerStepFrame(s, step);
    } else {
      OtherStepFrame(s, step);
    }
  }

  lemma {:induction false} NobodySettlesRun(s: State, steps: seq<Step>, t: State)
    requires Reaches(s, steps, t) && NobodySettles(s)
    ensures NobodySettles(t)
    decreases steps
  {
    hide Apply, Enabled, NobodySettles;
    if steps != [] {
      NobodySettlesStep(s, steps[0]);
      NobodySettlesRun(Apply(s, steps[0]), steps[1..], t);
    }
  }

  /** Close settles everything exactly when there is a flush worker, or nothing was accepted. */
  lemma CloseSettlesIff(steps: seq<Step>, t: State)
    requires Reaches(INITIAL, steps, t) && t.back.closed
    ensures multiset(t.front.accepted) == Settled(t.back) <==> t.back.workers != [] || t.front.accepted == []
  {
    NobodySettlesRun(INITIAL, steps, t);
    if t.back.workers != [] {
      CloseSettlesAll(steps, t);
    } else if t.front.accepted != [] {
      assert t.front.accepted[0] in multiset(t.front.accepted);
    }
  }

  // The steps and the routines they are taken from

  /** A received message, a due tick and the close move the aggregator as the select loop does. */
  lemma StepsFollowLoop(s: State, bid: nat)
    requires Inv(s) && s.front.agg.Ready?
    ensures var current := s.front.agg.current;
            && (Enabled(s, Receive(bid)) ==>
                  Follows(AfterReceive(s, bid), current, W.React(current.state, W.Arrived(s.front.input[0]))))
            && (Enabled(s, Tick(bid)) ==>
                  Follows(AfterFlush(s, bid, Interval, Resume), current, W.React(current.state, W.Ticked(true))))
            && (Enabled(s, DrainInput(bid)) ==>
                  Follows(AfterFlush(s, bid, Drain, Return), current, W.React(current.state, W.Closed)))
  {
    hide TryAdd, Sum, Packed, Owns;
  }

  /** The batch that leaves is on its way to the channel, or is not; then the next one is filled. */
  ghost predicate Follows(t: State, current: Filled, r: W.Reaction) {
    match t.front.agg
    case Ready(next) => r.off.None? && next == current.(state := r.next)
    case Blocked(full, spare, after) =>
      && r.off == Some(full.state) && full.bid == current.bid
      && r.next == (if after.Readd? then TryAdd(spare.state, after.m).state else spare.state)
    case _ => false
  }

  /** The answers a worker hears in a run, until its request is settled. */
  ghost function Heard(s: State, i: nat, steps: seq<Step>): seq<Answer>
    decreases |steps|
  {
    if steps == [] || !Enabled(s, steps[0]) || i >= |s.back.workers| || !s.back.workers[i].Sending? then []
    else
      (if Answers(steps[0], i) then [steps[0].answer] else []) + Heard(Apply(s, steps[0]), i, steps[1..])
  }

  predicate Answers(step: Step, i: nat) { step.Respond? && step.i == i }

  datatype Account = Account(acked: multiset<Message>, failed: multiset<Message>, lost: multiset<Message>)

  ghost function Added(a: Account, b: Account): Account {
    Account(a.acked + b.acked, a.failed + b.failed, a.lost + b.lost)
  }

  const NOTHING := Account(multiset{}, multiset{}, multiset{})

  /** What one step settles. */
  ghost function Credit(s: State, t: State): Account {
    Account(t.back.acked - s.back.acked, t.back.failed - s.back.failed, t.back.lost - s.back.lost)
  }

  /** What those answers settle. */
  ghost function Credited(s: State, i: nat, steps: seq<Step>): Account
    decreases |steps|
  {
    if steps == [] || !Enabled(s, steps[0]) || i >= |s.back.workers| || !s.back.workers[i].Sending? then NOTHING
    else
      var t := Apply(s, steps[0]);
      Added(if Answers(steps[0], i) then Credit(s, t) else NOTHING, Credited(t, i, steps[1..]))
  }

  /** What the retry loop's result settles: refused records count as lost if it returned nil, as failed if not. */
  ghost function AccountOf(r: Flush.Run<Out>): Account {
    Account(Sum(r.acked, OutMsgs),
            if r.outcome.SendError? then Sum(r.pending, OutMsgs) else multiset{},
            Sum(r.unreported, OutMsgs) + if r.outcome.Delivered? then Sum(r.pending, OutMsgs) else multiset{})
  }

  lemma StartedHasNoSender(s: State)
    requires Inv(s) && s.front.agg.NotStarted?
    ensures s.back.workers == []
  {}

  lemma OthersLeaveWorker(s: State, step: Step, i: nat)
    requires Inv(s) && Enabled(s, step) && i < |s.back.workers| && s.back.workers[i].Sending? && !Answers(step, i)
    ensures |Apply(s, step).back.workers| == |s.back.workers| && Apply(s, step).back.workers[i] == s.back.workers[i]
  {
    hide Inv, Apply;
    if OfWorker(step) {
      WorkerStepFrame(s, step);
      SendingOnlyHears(s, step, i);
    } else {
      OtherStepFrame(s, step);
      if s.front.agg.NotStarted? {
        StartedHasNoSender(s);
      }
      assert step.Start? ==> s.front.agg.NotStarted?;
    }
  }

  lemma SendingOnlyHears(s: State, step: Step, i: nat)
    requires Enabled(s, step) && OfWorker(step) && i < |s.back.workers| && s.back.workers[i].Sending?
    ensures WorkerOf(step) == i <==> Answers(step, i)
  {}

  lemma TakeBack<T>(a: multiset<T>, x: multiset<T>)
    ensures (a + x) - a == x
  {}

  /** A final answer settles what the loop's last attempt does. */
  lemma FinalCredit(s: State, i: nat, answer: Answer)
    requires i < |s.back.workers| && s.back.workers[i].Sending?
    requires answer.Unreachable? || answer.failedCount == 0
    ensures Credit(s, AfterRespond(s, i, answer)) == AccountOf(Send(s.back.workers[i].request, [answer]))
    ensures !Send(s.back.workers[i].request, [answer]).outcome.Waiting?
  {
    hide Pick, Unreported, Sum;
    var request, b := s.back.workers[i].request, s.back;
    var r := Send(request, [answer]);
    SumOfNone();
    if answer.Unreachable? {
      TakeBack(b.acked, multiset{});
      TakeBack(b.failed, Sum(request, OutMsgs));
      TakeBack(b.lost, multiset{});
      EmptyPlus<Message>(multiset{});
    } else {
      TakeBack(b.acked, Sum(r.acked, OutMsgs));
      TakeBack(b.failed, multiset{});
      SumAppend(r.pending, r.unreported, OutMsgs);
      TakeBack(b.lost, Sum(r.pending + r.unreported, OutMsgs));
      Swapped(Sum(r.pending, OutMsgs), Sum(r.unreported, OutMsgs));
    }
  }

  lemma Swapped<T>(a: multiset<T>, b: multiset<T>)
    ensures a + b == b + a
  {}

  lemma RetryCredit(s: State, i: nat, codes: seq<bool>)
    requires i < |s.back.workers| && s.back.workers[i].Sending?
    ensures var request := s.back.workers[i].request;
            Credit(s, Retried(s, i, codes))
            == Account(Sum(Pick(request, codes, false), OutMsgs), multiset{}, Sum(Unreported(request, codes), OutMsgs))
  {
    hide Pick, Unreported, Sum;
    var request := s.back.workers[i].request;
    TakeBack(s.back.acked, Sum(Pick(request, codes, false), OutMsgs));
    TakeBack(s.back.lost, Sum(Unreported(request, codes), OutMsgs));
  }

  /** A retried attempt and the loop that follows it. */
  lemma RetryAccount(request: seq<Out>, answers: seq<Answer>)
    requires Retries(answers) && !LooksUpBeyond(|request|, answers[0].codes)
    ensures var codes := answers[0].codes;
            AccountOf(Send(request, answers))
            == Added(Account(Sum(Pick(request, codes, false), OutMsgs), multiset{},
                             Sum(Unreported(request, codes), OutMsgs)),
                     AccountOf(Send(Pick(request, codes, true), answers[1..])))
  {
    hide Pick, Unreported, Sum;
    var codes := answers[0].codes;
    var rest := Send(Pick(request, codes, true), answers[1..]);
    SumAppend(Pick(request, codes, false), rest.acked, OutMsgs);
    SumAppend(Unreported(request, codes), rest.unreported, OutMsgs);
    EmptyPlus(AccountOf(rest).failed);
    var refused := if rest.outcome.Delivered? then Sum(rest.pending, OutMsgs) else multiset{};
    Regroup(Sum(Unreported(request, codes), OutMsgs), Sum(rest.unreported, OutMsgs), refused);
  }

  /**
   In any run, whatever the others do in between, the answers a worker hears for
   its request settle just what the retry loop settles on those answers; while
   the loop waits for more, the worker holds just what the loop leaves pending.
   */
  lemma {:induction false} ResponsesFollowSend(s: State, i: nat, steps: seq<Step>, t: State)
    requires Inv(s) && i < |s.back.workers| && s.back.workers[i].Sending? && Reaches(s, steps, t)
    ensures var r := Send(s.back.workers[i].request, Heard(s, i, steps));
            && Credited(s, i, steps) == AccountOf(r)
            && (r.outcome.Waiting? ==> i < |t.back.workers| && t.back.workers[i] == Sending(r.pending))
    decreases |steps|
  {
    hide Inv, Sum, Pick, Unreported, Enabled, Apply, AccountOf, Credit;
    var request := s.back.workers[i].request;
    if steps == [] {
      NothingHeard(request);
    } else {
      var next := Apply(s, steps[0]);
      StepKeeps(s, steps[0]);
      if Answers(steps[0], i) {
        AnswerHeard(s, i, steps, t);
      } else {
        OthersLeaveWorker(s, steps[0], i);
        ResponsesFollowSend(next, i, steps[1..], t);
        assert [] + Heard(next, i, steps[1..]) == Heard(next, i, steps[1..]);
        assert Added(NOTHING, Credited(next, i, steps[1..])) == Credited(next, i, steps[1..]);
      }
    }
  }

  lemma NothingHeard(request: seq<Out>)
    ensures AccountOf(Send(request, [])) == NOTHING
  {
    SumOfNone();
  }

  lemma AnswerHeard(s: State, i: nat, steps: seq<Step>, t: State)
    requires Inv(s) && i < |s.back.workers| && s.back.workers[i].Sending? && Reaches(s, steps, t)
    requires steps != [] && Answers(steps[0], i)
    ensures var r := Send(s.back.workers[i].request, Heard(s, i, steps));
            && Credited(s, i, steps) == AccountOf(r)
            && (r.outcome.Waiting? ==> i < |t.back.workers| && t.back.workers[i] == Sending(r.pending))
    decreases |steps|, 0
  {
    hide Inv, Sum, Pick, Unreported, AccountOf, Credit;
    var request, answer, next := s.back.workers[i].request, steps[0].answer, Apply(s, steps[0]);
    var more := Heard(next, i, steps[1..]);
    assert next == AfterRespond(s, i, answer);
    assert Heard(s, i, steps) == [answer] + more;
    StepKeeps(s, steps[0]);
    if Retries([answer]) {
      assert ([answer] + more)[1..] == more;
      RetryCredit(s, i, answer.codes);
      ResponsesFollowSend(next, i, steps[1..], t);
      RetryAccount(request, [answer] + more);
    } else {
      FinalCredit(s, i, answer);
      assert more == [] && [answer] + more == [answer];
      assert Credited(next, i, steps[1..]) == NOTHING;
      NothingAdded(Credit(s, next));
    }
  }

  lemma NothingAdded(a: Account)
    ensures Added(a, NOTHING) == a
  {}

  // A producer configured with no flush workers, step by step

  const LEFT := Message(0, 0, [])
  const LOADED := BatchState(6, 6, 0, [LEFT], Unset)

  function Scene(input: seq<Message>, open: bool, agg: Aggregator, sent: seq<Message>): Front {
    Front([LEFT], input, open, agg, sent)
  }

  function Nobody(output: seq<Filled>, open: bool, closed: bool): Back {
    Back(output, open, [], closed, multiset{}, multiset{}, multiset{})
  }

  /** One buffer and some batches are out, and nothing is pooled. */
  function Made(batches: nat, lost: set<nat>): Pools {
    Pools({}, 1, map[], batches, {}, 0, {}, lost, {})
  }

  const AFTER_PUT :=
    State(Scene([LEFT], true, NotStarted, []), Nobody([], true, false), Made(0, {}))
  const AFTER_START :=
    State(Scene([LEFT], true, Ready(Filled(0, EMPTY)), []), Nobody([], true, false), Made(1, {}))
  const AFTER_RECEIVE :=
    State(Scene([], true, Ready(Filled(0, LOADED)), []), Nobody([], true, false), Made(1, {}))
  const AFTER_CLOSE :=
    State(Scene([], false, Ready(Filled(0, LOADED)), []), Nobody([], true, false), Made(1, {}))
  const DRAINED := Filled(0, LOADED.(flushReason := Drain))
  const AFTER_DRAIN :=
    State(Scene([], false, Blocked(DRAINED, Filled(1, EMPTY), Return), []),
          Nobody([], true, false), Made(2, {}))
  const AFTER_EMIT :=
    State(Scene([], false, Finished, [LEFT]), Nobody([DRAINED], true, false), Made(2, {1}))
  const AFTER_OUTPUT :=
    State(Scene([], false, Finished, [LEFT]), Nobody([DRAINED], false, false), Made(2, {1}))
  const AFTER_RETURN :=
    State(Scene([], false, Finished, [LEFT]), Nobody([DRAINED], false, true), Made(2, {1}))

  ghost predicate Leads(s: State, step: Step, t: State) {
    Fitting(step) && Enabled(s, step) && Apply(s, step) == t
  }

  lemma FirstSteps()
    ensures Leads(INITIAL, Put([], [], 0), AFTER_PUT)
    ensures Leads(AFTER_PUT, Start(0, 0), AFTER_START)
    ensures Leads(AFTER_START, Receive(1), AFTER_RECEIVE)
  {
    assert Apply(AFTER_START, Receive(1)).front.agg.current.state == LOADED;
  }

  lemma LastSteps()
    ensures Leads(AFTER_RECEIVE, CloseInput, AFTER_CLOSE)
    ensures Leads(AFTER_CLOSE, DrainInput(1), AFTER_DRAIN)
    ensures Leads(AFTER_DRAIN, Emit, AFTER_EMIT)
    ensures Leads(AFTER_EMIT, CloseOutput, AFTER_OUTPUT)
    ensures Leads(AFTER_OUTPUT, CloseReturns, AFTER_RETURN)
  {}

  lemma ReachesCons(s: State, step: Step, mid: State, steps: seq<Step>, t: State)
    requires Leads(s, step, mid) && Reaches(mid, steps, t)
    ensures Reaches(s, [step] + steps, t)
  {
    assert ([step] + steps)[1..] == steps;
  }

  lemma NoSteps(s: State)
    ensures Reaches(s, [], s)
  {}

  /** The other side is reachable: without flush workers Close returns with a message in the channel. */
  lemma NoWorkersLeavesMessages()
    ensures exists steps :: Reaches(INITIAL, steps, AFTER_RETURN)
    ensures AFTER_RETURN.back.closed && multiset(AFTER_RETURN.front.accepted) != Settled(AFTER_RETURN.back)
  {
    hide Leads, Reaches;
    FirstSteps();
    LastSteps();
    assert Reaches(AFTER_RETURN, [], AFTER_RETURN) by { NoSteps(AFTER_RETURN); }
    ReachesCons(AFTER_OUTPUT, CloseReturns, AFTER_RETURN, [], AFTER_RETURN);
    var r1: seq<Step> := [CloseReturns] + [];
    ReachesCons(AFTER_EMIT, CloseOutput, AFTER_OUTPUT, r1, AFTER_RETURN);
    var r2 := [CloseOutput] + r1;
    ReachesCons(AFTER_DRAIN, Emit, AFTER_EMIT, r2, AFTER_RETURN);
    var r3 := [Emit] + r2;
    ReachesCons(AFTER_CLOSE, DrainInput(1), AFTER_DRAIN, r3, AFTER_RETURN);
    var r4 := [DrainInput(1)] + r3;
    ReachesCons(AFTER_RECEIVE, CloseInput, AFTER_CLOSE, r4, AFTER_RETURN);
    var r5 := [CloseInput] + r4;
    ReachesCons(AFTER_START, Receive(1), AFTER_RECEIVE, r5, AFTER_RETURN);
    var r6 := [Receive(1)] + r5;
    ReachesCons(AFTER_PUT, Start(0, 0), AFTER_START, r6, AFTER_RETURN);
    var r7 := [Start(0, 0)] + r6;
    ReachesCons(INITIAL, Put([], [], 0), AFTER_PUT, r7, AFTER_RETURN);
    LeftBehind();
  }

  lemma LeftBehind()
    ensures multiset(AFTER_RETURN.front.accepted) != Settled(AFTER_RETURN.back)
  {
    assert LEFT in AFTER_RETURN.front.accepted;
  }

  /**
   The size check looks at the data before compression. Where compression adds a
   byte to the longest accepted data, Put buffers a message that no entry can hold,
   and the compile loop of its batch never ends.
   */
  lemma PutCheckIsNotEnough()
    ensures exists data: seq<byte>, stored: seq<byte> ::
              |stored| == |data| + 1 && PutAccepts(data)
              && forall k :: Consumed([Message(0, 0, stored)], k) < 1
  {
    var data: seq<byte> := seq(51141, _ => 0);
    var stored: seq<byte> := seq(51142, _ => 0);
    var ms := [Message(0, 0, stored)];
    assert !Fits(ms[0]);
    forall k: nat ensures Consumed(ms, k) < 1 { NeverPassesUnfitting(ms, 0, k); }
    assert |stored| == |data| + 1 && PutAccepts(data);
  }
}
