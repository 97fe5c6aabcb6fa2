/** The worker steps and the closing steps keep the pipeline invariant. */
module PipelineWorkers {
  import opened Bytes
  import opened Sizes
  import opened Packing
  import opened Batches
  import opened Compiler
  import opened Flush
  import opened Sums
  import opened Pipeline
  import opened PipelineInvariant

  // Requests built by the compile loop

  lemma {:induction false} GroupsSnoc(es: seq<Out>, o: Out)
    ensures GroupsOf(es + [o]) == GroupsOf(es) + [o.group]
  {
    if es == [] {
      assert [] + [o] == [o] && GroupsOf([o]) == [o.group] + GroupsOf([]);
    } else {
      assert (es + [o])[1..] == es[1..] + [o];
      GroupsSnoc(es[1..], o);
    }
  }

  lemma {:induction false} GroupsLength(es: seq<Out>)
    ensures |GroupsOf(es)| == |es|
    ensures forall o <- es :: o.group in GroupsOf(es)
  {
    if es != [] {
      GroupsLength(es[1..]);
    }
  }

  lemma {:induction false} GroupsBytes(es: seq<Out>)
    ensures OutBytes(es) == |es| * ENTRY_TOTAL_METADATA_SIZE + TotalSize(Flatten(GroupsOf(es)))
  {
    if es != [] {
      var rest := Flatten(GroupsOf(es[1..]));
      GroupsBytes(es[1..]);
      assert Flatten(GroupsOf(es)) == es[0].group + rest;
      hide TotalSize, Flatten, GroupsOf;
      TotalSizeAppend(es[0].group, rest);
    }
  }

  lemma {:induction false} GroupsMessages(es: seq<Out>)
    ensures Sum(es, OutMsgs) == multiset(Flatten(GroupsOf(es)))
  {
    if es != [] {
      GroupsMessages(es[1..]);
    }
  }

  /** A fully compiled batch is a request within every limit, carrying just its messages. */
  lemma CompiledRequest(state: BatchState, es: seq<Out>)
    requires Packed(state) && SplitAt(state.messages, |state.messages|, GroupsOf(es))
    ensures WithinLimits(es) && Sum(es, OutMsgs) == multiset(state.messages)
  {
    var ms := state.messages;
    hide NextFit, TotalSize, Sum, GroupsOf, OutBytes;
    SplitEnds(ms);
    NextFitPacks(ms);
    EntryCountBound(ms);
    GroupsLength(es);
    GroupsBytes(es);
    GroupsMessages(es);
  }

  // Giving pooled objects back

  lemma {:induction false} BufIdsAre(ms: seq<Message>, x: nat)
    ensures x in BufIds(ms) <==> x in Sum(ms, BufOf)
  {
    if ms != [] {
      BufIdsAre(ms[1..], x);
      assert ms == [ms[0]] + ms[1..];
      assert BufIds(ms) == {ms[0].buf} + BufIds(ms[1..]);
    }
  }

  lemma {:induction false} EntryIdsAre(es: seq<Out>, x: nat)
    ensures x in EntryIds(es) <==> x in Sum(es, EidOf)
  {
    if es != [] {
      EntryIdsAre(es[1..], x);
      assert es == [es[0]] + es[1..];
      assert EntryIds(es) == {es[0].eid} + EntryIds(es[1..]);
    }
  }

  lemma ReleaseBufs(f: Front, b: Back, p: Pools, i: nat, w: Worker)
    requires i < |b.workers| && b.workers[i].Compiling? && !w.Compiling?
    requires BufsOwned(f, b, p)
    ensures BufsOwned(f, WithWorker(b, i, w), Released(p, b.workers[i].batch))
  {
    var batch := b.workers[i].batch;
    var ms := batch.state.messages;
    var c := WithWorker(b, i, w);
    hide Sum, Owns;
    SumLoses(b.workers, i, w, WorkerBufs);
    Regroup(Sum(b.output, FilledBufs), Sum(c.workers, WorkerBufs), FilledBufs(batch));
    Regroup(Sum(HeldByAggregator(f.agg) + f.input, BufOf), BackBufs(c), FilledBufs(batch));
    forall x ensures x in BufIds(ms) <==> x in FilledBufs(batch) {
      BufIdsAreAt(ms, x);
    }
    OwnsGive(p.bufs, p.lostBufs, p.nextBuf, HeldBufs(f, c), FilledBufs(batch), BufIds(ms));
  }

  lemma BufIdsAreAt(ms: seq<Message>, x: int)
    ensures x in BufIds(ms) <==> x in Sum(ms, BufOf)
  {
    if x >= 0 {
      BufIdsAre(ms, x);
    }
  }

  lemma ReleaseBatch(f: Front, b: Back, p: Pools, i: nat, w: Worker)
    requires i < |b.workers| && b.workers[i].Compiling? && !w.Compiling?
    requires BatchesOwned(f, b, p)
    ensures BatchesOwned(f, WithWorker(b, i, w), Released(p, b.workers[i].batch))
  {
    var batch := b.workers[i].batch;
    var c, q := WithWorker(b, i, w), Released(p, batch);
    hide Sum, Owns;
    SumLoses(b.workers, i, w, WorkerBids);
    Regroup(Sum(b.output, BidOf), Sum(c.workers, WorkerBids), BidOf(batch));
    Regroup(AggregatorBids(f.agg), BackBids(c), BidOf(batch));
    OwnsGive(p.batches.Keys, p.lostBatches, p.nextBatch, HeldBids(f, c), BidOf(batch), {batch.bid});
    assert q.batches.Keys == p.batches.Keys + {batch.bid};
  }

  lemma ReleaseEntries(b: Back, p: Pools, i: nat, w: Worker, held: multiset<nat>, extra: multiset<nat>, ids: set<nat>)
    requires i < |b.workers| && WorkerEids(w) == multiset{}
    requires held == HeldEids(b) + extra && Owns(p.entries, p.lostEntries, p.nextEntry, held)
    requires forall x :: x in ids <==> x in WorkerEids(b.workers[i]) + extra
    ensures EntriesOwned(WithWorker(b, i, w), p.(entries := p.entries + ids))
  {
    var c := WithWorker(b, i, w);
    hide Sum, Owns, WorkerEids;
    SumLoses(b.workers, i, w, WorkerEids);
    Regroup(HeldEids(c), WorkerEids(b.workers[i]), extra);
    OwnsGive(p.entries, p.lostEntries, p.nextEntry, HeldEids(c), WorkerEids(b.workers[i]) + extra, ids);
  }

  // CompileEntry

  ghost predicate WorkersGood(b: Back) { forall w <- b.workers :: GoodWorker(w) }

  lemma WorkerReplaced(b: Back, i: nat, w: Worker)
    requires i < |b.workers| && WorkersGood(b) && GoodWorker(w)
    ensures WorkersGood(WithWorker(b, i, w))
  {
    hide GoodWorker;
    forall v <- b.workers[i := w] ensures GoodWorker(v) {
      var k :| 0 <= k < |b.workers| && b.workers[i := w][k] == v;
      if k != i {
        assert b.workers[k] == v;
      }
    }
  }

  lemma ShutdownKept(f: Front, b: Back, i: nat, w: Worker)
    requires ShuttingDown(f, b) && i < |b.workers| && !b.workers[i].Exited? && !w.Exited?
    ensures ShuttingDown(f, WithWorker(b, i, w))
  {
    assert b.workers[i] in b.workers;
  }

  /** What is left to check when only worker i, the tallies and the pools change. */
  lemma Assemble(s: State, i: nat, w: Worker, c: Back, q: Pools)
    requires Inv(s) && i < |s.back.workers| && !s.back.workers[i].Exited? && !w.Exited?
    requires c.output == s.back.output && c.workers == s.back.workers[i := w]
    requires c.outputOpen == s.back.outputOpen && c.closed == s.back.closed
    requires Delivering(s.front, c) && GoodWorker(w)
    requires forall bid <- q.batches :: q.batches[bid] == EMPTY
    requires BufsOwned(s.front, WithWorker(s.back, i, w), q)
    requires BatchesOwned(s.front, WithWorker(s.back, i, w), q)
    requires EntriesOwned(WithWorker(s.back, i, w), q)
    ensures Inv(State(s.front, c, q))
  {
    hide InOrder, Owns, Packed, GoodWorker, HeldByAggregator, AggregatorBids, Sum, Delivering;
    WorkerReplaced(s.back, i, w);
    ShutdownKept(s.front, s.back, i, w);
  }

  lemma ReleaseAllEntries(b: Back, p: Pools, i: nat, eid: nat)
    requires i < |b.workers| && b.workers[i].Compiling? && EntriesOwned(b, p)
    requires Available(p.entries, p.nextEntry, eid)
    ensures var ids := {eid} + EntryIds(b.workers[i].entries);
            var q := WithEntry(p, eid);
            EntriesOwned(WithWorker(b, i, Idle), q.(entries := q.entries + ids))
  {
    var es := b.workers[i].entries;
    var q, ids := WithEntry(p, eid), {eid} + EntryIds(es);
    OwnsTake(p.entries, p.lostEntries, p.nextEntry, HeldEids(b), eid);
    forall x ensures x in ids <==> x in Sum(es, EidOf) + multiset{eid} {
      EntryIdsAreAt(es, x);
    }
    ReleaseEntries(b, q, i, Idle, HeldEids(b) + multiset{eid}, multiset{eid}, ids);
  }

  lemma GiveUpKeeps(s: State, i: nat, eid: nat)
    requires Inv(s) && i < |s.back.workers| && s.back.workers[i].Compiling?
    requires Available(s.pools.entries, s.pools.nextEntry, eid)
    ensures Inv(GiveUp(s, i, eid))
  {
    var f, b, p := s.front, s.back, s.pools;
    hide InOrder, Owns, Packed, GoodWorker, HeldByAggregator, AggregatorBids, Sum, EntryIds, BufIds;
    NothingToDo();
    SettleFailed(f, b, i);
    ReleaseBufs(f, b, p, i, Idle);
    ReleaseBatch(f, b, p, i, Idle);
    ReleaseAllEntries(b, p, i, eid);
    WorkerReplaced(b, i, Idle);
    ShutdownKept(f, b, i, Idle);
  }

  lemma EntryIdsAreAt(es: seq<Out>, x: int)
    ensures x in EntryIds(es) <==> x in Sum(es, EidOf)
  {
    if x >= 0 {
      EntryIdsAre(es, x);
    }
  }

  lemma NothingToDo()
    ensures GoodWorker(Idle) && GoodWorker(Exited)
  {}

  lemma SettleFailed(f: Front, b: Back, i: nat)
    requires i < |b.workers| && Delivering(f, b)
    ensures Delivering(f, WithWorker(b, i, Idle).(failed := b.failed + WorkerMsgs(b.workers[i])))
  {
    hide Sum, WorkerMsgs;
    assert WorkerMsgs(Idle) == multiset{} by { IdleMsgs(); }
    SumLoses(b.workers, i, Idle, WorkerMsgs);
    var x := WorkerMsgs(b.workers[i]);
    Shift(Sum(b.output, FilledMsgs), Sum(b.workers[i := Idle], WorkerMsgs), x, b.acked, b.failed, b.lost);
  }

  lemma IdleMsgs()
    ensures WorkerMsgs(Idle) == multiset{}
  {}

  lemma Shift<T>(o: multiset<T>, w: multiset<T>, x: multiset<T>, a: multiset<T>, f: multiset<T>, l: multiset<T>)
    ensures (o + (w + x)) + (a + f + l) == (o + w) + (a + (f + x) + l)
  {}

  /** Replacing a worker that keeps the same buffers and batch changes neither ownership. */
  lemma SameHoldings(f: Front, b: Back, p: Pools, i: nat, w: Worker)
    requires i < |b.workers|
    requires WorkerBufs(w) == WorkerBufs(b.workers[i]) && WorkerBids(w) == WorkerBids(b.workers[i])
    requires BufsOwned(f, b, p) && BatchesOwned(f, b, p)
    ensures BufsOwned(f, WithWorker(b, i, w), p) && BatchesOwned(f, WithWorker(b, i, w), p)
  {
    hide Sum, Owns, WorkerBufs, WorkerBids;
    SumSame(b.workers, i, w, WorkerBufs);
    SumSame(b.workers, i, w, WorkerBids);
  }

  lemma AddEntryOwned(b: Back, p: Pools, i: nat, w: Worker, eid: nat)
    requires i < |b.workers| && EntriesOwned(b, p) && Available(p.entries, p.nextEntry, eid)
    requires WorkerEids(w) == WorkerEids(b.workers[i]) + multiset{eid}
    ensures EntriesOwned(WithWorker(b, i, w), WithEntry(p, eid))
  {
    var c := WithWorker(b, i, w);
    var prev := WorkerEids(b.workers[i]);
    hide Sum, Owns, WorkerEids;
    SumUpdate(b.workers, i, w, WorkerEids);
    assert HeldEids(c) + prev == HeldEids(b) + (prev + multiset{eid});
    assert HeldEids(b) + (prev + multiset{eid}) == (HeldEids(b) + multiset{eid}) + prev;
    CancelRight(HeldEids(c), HeldEids(b) + multiset{eid}, prev);
    OwnsTake(p.entries, p.lostEntries, p.nextEntry, HeldEids(b), eid);
  }

  lemma SameMessages(f: Front, b: Back, i: nat, w: Worker)
    requires i < |b.workers| && Delivering(f, b) && WorkerMsgs(w) == WorkerMsgs(b.workers[i])
    ensures Delivering(f, WithWorker(b, i, w))
  {
    hide Sum, WorkerMsgs;
    SumSame(b.workers, i, w, WorkerMsgs);
  }

  ghost predicate NextWorker(prev: Worker, w: Worker, eid: nat)
    requires prev.Compiling? && prev.done < |prev.batch.state.messages|
  {
    var ms := prev.batch.state.messages;
    var g := NextGroup(ms, prev.done);
    var es := prev.entries + [Out(eid, g)];
    w == if prev.done + |g| < |ms| then Compiling(prev.batch, prev.done + |g|, es) else Sending(es)
  }

  lemma NextSplit(ms: seq<Message>, done: nat, entries: seq<Out>, o: Out)
    requires done < |ms| && SplitAt(ms, done, GroupsOf(entries)) && o.group == NextGroup(ms, done)
    ensures done + |o.group| <= |ms| && SplitAt(ms, done + |o.group|, GroupsOf(entries + [o]))
  {
    hide SplitAt, NextGroup, GroupsOf;
    SplitStep(ms, done, GroupsOf(entries));
    GroupsSnoc(entries, o);
    SplitLength(ms, done + |o.group|, GroupsOf(entries) + [o.group]);
  }

  lemma NextWorkerGood(prev: Worker, w: Worker, eid: nat)
    requires prev.Compiling? && GoodWorker(prev) && NextWorker(prev, w, eid)
    ensures GoodWorker(w)
    ensures WorkerMsgs(w) == WorkerMsgs(prev)
  {
    var ms := prev.batch.state.messages;
    var o := Out(eid, NextGroup(ms, prev.done));
    hide Packed, SplitAt, NextGroup, Sum, GroupsOf, WithinLimits;
    NextSplit(ms, prev.done, prev.entries, o);
    if w.Sending? {
      CompiledRequest(prev.batch.state, prev.entries + [o]);
    }
  }

  lemma NextWorkerEids(prev: Worker, w: Worker, eid: nat)
    requires prev.Compiling? && prev.done < |prev.batch.state.messages| && NextWorker(prev, w, eid)
    ensures WorkerEids(w) == WorkerEids(prev) + multiset{eid}
  {
    hide NextGroup, Sum;
    SumSnoc(prev.entries, Out(eid, NextGroup(prev.batch.state.messages, prev.done)), EidOf);
  }

  lemma SplitLength(ms: seq<Message>, done: nat, gone: seq<Group>)
    requires SplitAt(ms, done, gone)
    ensures done <= |ms|
  {}

  lemma AddEntryPools(f: Front, b: Back, p: Pools, i: nat, w: Worker, eid: nat)
    requires i < |b.workers| && b.workers[i].Compiling?
    requires w.Sending? || (w.Compiling? && w.batch == b.workers[i].batch)
    requires BufsOwned(f, b, p) && BatchesOwned(f, b, p)
    ensures var q := if w.Sending? then Released(WithEntry(p, eid), b.workers[i].batch) else WithEntry(p, eid);
            BufsOwned(f, WithWorker(b, i, w), q) && BatchesOwned(f, WithWorker(b, i, w), q)
  {
    hide Owns, BufIds, BackBufs, BackBids;
    if w.Sending? {
      ReleaseBufs(f, b, p, i, w);
      ReleaseBatch(f, b, p, i, w);
    } else {
      SameHoldings(f, b, p, i, w);
    }
  }

  lemma AddEntryKeeps(s: State, i: nat, eid: nat)
    requires Inv(s) && i < |s.back.workers| && s.back.workers[i].Compiling?
    requires s.back.workers[i].done < |s.back.workers[i].batch.state.messages|
    requires Available(s.pools.entries, s.pools.nextEntry, eid)
    ensures Inv(AddEntry(s, i, eid))
  {
    hide InOrder, BufsOwned, BatchesOwned, EntriesOwned, Packed, GoodWorker, ShuttingDown, WorkerMsgs, WorkerEids;
    hide BufIds, GreedyLen, Delivering;
    var f, b, p := s.front, s.back, s.pools;
    var t := AddEntry(s, i, eid);
    var w := t.back.workers[i];
    assert NextWorker(b.workers[i], w, eid);
    assert GoodWorker(b.workers[i]) by { assert b.workers[i] in b.workers; }
    NextWorkerGood(b.workers[i], w, eid);
    NextWorkerEids(b.workers[i], w, eid);
    SameMessages(f, b, i, w);
    AddEntryOwned(b, p, i, w, eid);
    AddEntryPools(f, b, p, i, w, eid);
    EntriesOwnedFrame(t.back, WithEntry(p, eid), t.pools);
    Assemble(s, i, w, t.back, t.pools);
  }

  lemma EntriesOwnedFrame(b: Back, p: Pools, q: Pools)
    requires p.entries == q.entries && p.nextEntry == q.nextEntry && p.lostEntries == q.lostEntries
    ensures EntriesOwned(b, p) <==> EntriesOwned(b, q)
  {}

  // Respond

  lemma {:induction false} PickWithin(es: seq<Out>, codes: seq<bool>, want: bool)
    ensures |Pick(es, codes, want)| <= |es|
    ensures OutBytes(Pick(es, codes, want)) <= OutBytes(es)
    ensures forall o <- Pick(es, codes, want) :: o in es
  {
    hide GroupBytes;
    if es != [] && codes != [] {
      var tail := Pick(es[1..], codes[1..], want);
      PickWithin(es[1..], codes[1..], want);
      assert codes[0] == want ==> ([es[0]] + tail)[1..] == tail;
      assert Pick(es, codes, want) == if codes[0] == want then [es[0]] + tail else tail;
    }
  }

  lemma SettleAnswered(f: Front, b: Back, i: nat, w: Worker, acked: multiset<Message>, lost: multiset<Message>)
    requires i < |b.workers| && Delivering(f, b)
    requires WorkerMsgs(b.workers[i]) == acked + (WorkerMsgs(w) + lost)
    ensures Delivering(f, WithWorker(b, i, w).(acked := b.acked + acked, lost := b.lost + lost))
  {
    hide Sum, WorkerMsgs;
    var c := WithWorker(b, i, w);
    var rest := Sum(c.workers, WorkerMsgs);
    SumUpdate(b.workers, i, w, WorkerMsgs);
    var before := Sum(b.workers, WorkerMsgs);
    assert rest + (acked + (WorkerMsgs(w) + lost)) == (rest + (acked + lost)) + WorkerMsgs(w);
    CancelRight(rest + (acked + lost), before, WorkerMsgs(w));
    Move(Sum(b.output, FilledMsgs), rest, acked, lost, b.acked, b.failed, b.lost);
  }

  lemma Move<T>(o: multiset<T>, w: multiset<T>, x: multiset<T>, y: multiset<T>,
                a: multiset<T>, f: multiset<T>, l: multiset<T>)
    ensures (o + (w + (x + y))) + (a + f + l) == (o + w) + ((a + x) + f + (l + y))
  {}

  lemma RequestReturned(b: Back, p: Pools, i: nat)
    requires i < |b.workers| && b.workers[i].Sending? && EntriesOwned(b, p)
    ensures EntriesOwned(WithWorker(b, i, Idle), p.(entries := p.entries + EntryIds(b.workers[i].request)))
  {
    var request := b.workers[i].request;
    hide Owns, Sum;
    EmptyPlus(HeldEids(b));
    EmptyPlus(Sum(request, EidOf));
    forall x ensures x in EntryIds(request) <==> x in Sum(request, EidOf) { EntryIdsAreAt(request, x); }
    ReleaseEntries(b, p, i, Idle, HeldEids(b), multiset{}, EntryIds(request));
  }

  lemma EntriesDropped(b: Back, p: Pools, i: nat, w: Worker, dropped: multiset<nat>, ids: set<nat>)
    requires i < |b.workers| && EntriesOwned(b, p)
    requires WorkerEids(b.workers[i]) == WorkerEids(w) + dropped
    requires forall x :: x in ids <==> x in dropped
    ensures EntriesOwned(WithWorker(b, i, w), p.(lostEntries := p.lostEntries + ids))
  {
    var c := WithWorker(b, i, w);
    hide Sum, Owns, WorkerEids;
    SumUpdate(b.workers, i, w, WorkerEids);
    assert HeldEids(c) + (WorkerEids(w) + dropped) == (HeldEids(c) + dropped) + WorkerEids(w);
    CancelRight(HeldEids(c) + dropped, HeldEids(b), WorkerEids(w));
    OwnsDrop(p.entries, p.lostEntries, p.nextEntry, HeldEids(c), dropped, ids);
  }

  lemma ReturnedKeeps(s: State, i: nat, acked: seq<Out>, failed: seq<Out>, lost: seq<Out>)
    requires Inv(s) && i < |s.back.workers| && s.back.workers[i].Sending?
    requires Sum(s.back.workers[i].request, OutMsgs) == Sum(acked, OutMsgs) + Sum(failed, OutMsgs) + Sum(lost, OutMsgs)
    ensures Inv(Returned(s, i, acked, failed, lost))
  {
    var f, b, p := s.front, s.back, s.pools;
    var t := Returned(s, i, acked, failed, lost);
    hide Owns, Sum, EntryIds;
    SettleReturned(f, b, i, Sum(acked, OutMsgs), Sum(failed, OutMsgs), Sum(lost, OutMsgs));
    NothingToDo();
    RequestReturned(b, p, i);
    SameHoldings(f, b, p, i, Idle);
    hide InOrder, ShuttingDown, Delivering, GoodWorker, HeldBufs, HeldBids, HeldEids;
    Assemble(s, i, Idle, t.back, t.pools);
  }

  lemma SettleReturned(f: Front, b: Back, i: nat, acked: multiset<Message>, failed: multiset<Message>,
                       lost: multiset<Message>)
    requires i < |b.workers| && Delivering(f, b)
    requires WorkerMsgs(b.workers[i]) == acked + failed + lost
    ensures Delivering(f, WithWorker(b, i, Idle).(acked := b.acked + acked, failed := b.failed + failed,
                                                  lost := b.lost + lost))
  {
    assert WorkerMsgs(Idle) == multiset{} by { IdleMsgs(); }
    hide Sum, WorkerMsgs;
    SumLoses(b.workers, i, Idle, WorkerMsgs);
    MoveAll(Sum(b.output, FilledMsgs), Sum(b.workers[i := Idle], WorkerMsgs), acked, failed, lost,
            b.acked, b.failed, b.lost);
  }

  lemma MoveAll<T>(o: multiset<T>, w: multiset<T>, x: multiset<T>, y: multiset<T>, z: multiset<T>,
                   a: multiset<T>, f: multiset<T>, l: multiset<T>)
    ensures (o + (w + (x + y + z))) + (a + f + l) == (o + w) + ((a + x) + (f + y) + (l + z))
  {}

  lemma RetriedEntries(b: Back, p: Pools, i: nat, codes: seq<bool>)
    requires i < |b.workers| && b.workers[i].Sending? && EntriesOwned(b, p)
    ensures var request := b.workers[i].request;
            var ids := EntryIds(Pick(request, codes, false)) + EntryIds(Unreported(request, codes));
            EntriesOwned(WithWorker(b, i, Sending(Pick(request, codes, true))), p.(lostEntries := p.lostEntries + ids))
  {
    var request := b.workers[i].request;
    var w := Sending(Pick(request, codes, true));
    var ok, missed := Pick(request, codes, false), Unreported(request, codes);
    hide Owns, Sum, Pick, Unreported, HeldEids, EntryIds;
    SumPick(request, codes, EidOf);
    Reorder(Sum(ok, EidOf), WorkerEids(w), Sum(missed, EidOf));
    forall x
      ensures x in EntryIds(ok) + EntryIds(missed) <==> x in Sum(ok, EidOf) + Sum(missed, EidOf)
    {
      EntryIdsAreAt(ok, x);
      EntryIdsAreAt(missed, x);
    }
    EntriesDropped(b, p, i, w, Sum(ok, EidOf) + Sum(missed, EidOf), EntryIds(ok) + EntryIds(missed));
  }

  lemma RetriedDelivers(f: Front, b: Back, i: nat, codes: seq<bool>)
    requires i < |b.workers| && b.workers[i].Sending? && Delivering(f, b)
    ensures var request := b.workers[i].request;
            Delivering(f, WithWorker(b, i, Sending(Pick(request, codes, true))).(
                            acked := b.acked + Sum(Pick(request, codes, false), OutMsgs),
                            lost := b.lost + Sum(Unreported(request, codes), OutMsgs)))
  {
    var request := b.workers[i].request;
    var w := Sending(Pick(request, codes, true));
    var ok, missed := Pick(request, codes, false), Unreported(request, codes);
    hide Sum, Pick, Unreported, Unsettled, Settled;
    SumPick(request, codes, OutMsgs);
    Reorder(Sum(ok, OutMsgs), WorkerMsgs(w), Sum(missed, OutMsgs));
    SettleAnswered(f, b, i, w, Sum(ok, OutMsgs), Sum(missed, OutMsgs));
  }

  lemma RetriedPools(f: Front, b: Back, p: Pools, i: nat, codes: seq<bool>)
    requires i < |b.workers| && b.workers[i].Sending?
    requires BufsOwned(f, b, p) && BatchesOwned(f, b, p) && EntriesOwned(b, p)
    ensures var request := b.workers[i].request;
            var ids := EntryIds(Pick(request, codes, false)) + EntryIds(Unreported(request, codes));
            var c, q := WithWorker(b, i, Sending(Pick(request, codes, true))), p.(lostEntries := p.lostEntries + ids);
            BufsOwned(f, c, q) && BatchesOwned(f, c, q) && EntriesOwned(c, q)
  {
    hide Owns, Sum, Pick, Unreported, EntryIds, HeldBufs, HeldBids, HeldEids;
    RetriedEntries(b, p, i, codes);
    SameHoldings(f, b, p, i, Sending(Pick(b.workers[i].request, codes, true)));
  }

  lemma RetriedGood(b: Back, i: nat, codes: seq<bool>)
    requires i < |b.workers| && b.workers[i].Sending? && GoodWorker(b.workers[i])
    ensures GoodWorker(Sending(Pick(b.workers[i].request, codes, true)))
  {
    hide Pick;
    PickWithin(b.workers[i].request, codes, true);
  }

  lemma RetriedKeeps(s: State, i: nat, codes: seq<bool>)
    requires Inv(s) && i < |s.back.workers| && s.back.workers[i].Sending?
    ensures Inv(Retried(s, i, codes))
  {
    var f, b, p := s.front, s.back, s.pools;
    var t := Retried(s, i, codes);
    assert GoodWorker(b.workers[i]) by { assert b.workers[i] in b.workers; }
    hide Owns, Sum, Pick, Unreported, EntryIds, GoodWorker, InOrder, ShuttingDown, Delivering;
    hide BufsOwned, BatchesOwned, EntriesOwned, Packed;
    RetriedGood(b, i, codes);
    RetriedDelivers(f, b, i, codes);
    RetriedPools(f, b, p, i, codes);
    Assemble(s, i, Sending(Pick(b.workers[i].request, codes, true)), t.back, t.pools);
  }

  lemma Reorder<T>(a: multiset<T>, b: multiset<T>, c: multiset<T>)
    ensures a + b + c == a + (b + c) && a + b + c == b + (a + c)
  {}

  lemma RespondKeeps(s: State, i: nat, answer: Answer)
    requires Inv(s) && i < |s.back.workers| && s.back.workers[i].Sending?
    ensures Inv(AfterRespond(s, i, answer))
  {
    var request := s.back.workers[i].request;
    hide Inv, Pick, Unreported, EntryIds, Returned, Retried;
    assert Sum([], OutMsgs) == multiset{};
    hide Sum;
    match answer
    case Unreachable =>
      EmptyPlus(Sum(request, OutMsgs));
      ReturnedKeeps(s, i, [], request, []);
    case Answered(failedCount, codes) =>
      if failedCount == 0 {
        var ok, again, missed := Pick(request, codes, false), Pick(request, codes, true), Unreported(request, codes);
        SumPick(request, codes, OutMsgs);
        SumAppend(again, missed, OutMsgs);
        EmptyPlus(Sum(ok, OutMsgs));
        Regroup(Sum(ok, OutMsgs), Sum(again, OutMsgs), Sum(missed, OutMsgs));
        ReturnedKeeps(s, i, ok, [], again + missed);
      } else {
        RetriedKeeps(s, i, codes);
      }
  }

  // Closing

  lemma ExitCounts(f: Front, b: Back, p: Pools, i: nat)
    requires i < |b.workers| && b.workers[i].Idle? && Delivering(f, b)
    requires BufsOwned(f, b, p) && BatchesOwned(f, b, p) && EntriesOwned(b, p)
    ensures var c := WithWorker(b, i, Exited);
            Delivering(f, c) && BufsOwned(f, c, p) && BatchesOwned(f, c, p) && EntriesOwned(c, p)
  {
    assert b.workers[i] == Idle;
    SameMessages(f, b, i, Exited);
    SameHoldings(f, b, p, i, Exited);
    EntriesDropped(b, p, i, Exited, multiset{}, {});
    EntriesOwnedFrame(WithWorker(b, i, Exited), p.(lostEntries := p.lostEntries + {}), p);
  }

  lemma ExitKeeps(s: State, i: nat)
    requires Inv(s) && i < |s.back.workers| && s.back.workers[i].Idle?
    requires !s.back.outputOpen && s.back.output == []
    ensures Inv(s.(back := WithWorker(s.back, i, Exited)))
  {
    hide Owns, Sum, Packed, GoodWorker, HeldBufs, HeldBids, HeldEids, InOrder, Delivering;
    hide BufsOwned, BatchesOwned, EntriesOwned;
    ExitCounts(s.front, s.back, s.pools, i);
    NothingToDo();
    WorkerReplaced(s.back, i, Exited);
  }

  lemma CloseInputKeeps(s: State)
    requires Inv(s) && !s.front.agg.NotStarted?
    ensures Inv(s.(front := s.front.(inputOpen := false)))
  {
    hide Owns, Sum, GoodWorker, Packed, BackBufs, BackBids, HeldEids, Unsettled, Settled, HeldByAggregator;
  }

  lemma CloseOutputKeeps(s: State, closed: bool)
    requires Inv(s) && s.front.agg.Finished?
    requires closed ==> forall w <- s.back.workers :: w.Exited?
    ensures Inv(s.(back := s.back.(outputOpen := false, closed := closed)))
  {
    hide Owns, Sum, GoodWorker, Packed, HeldByAggregator, AggregatorBids, InOrder;
  }

  lemma NotYetClosed(s: State)
    requires Inv(s)
    ensures s.back.closed ==> forall w <- s.back.workers :: w.Exited?
    ensures !s.back.outputOpen ==> s.front.agg.Finished?
  {}

  /** The garbage collector may empty a pool at any time. */
  lemma CollectKeeps(s: State, bufs: set<nat>, batches: set<nat>, entries: set<nat>)
    requires Inv(s)
    ensures Inv(Apply(s, Collect(bufs, batches, entries)))
  {
    hide Sum, GoodWorker, Packed, HeldBufs, HeldBids, HeldEids, InOrder, Delivering, ShuttingDown, Owns;
    var p, f, b := s.pools, s.front, s.back;
    OwnsCollect(p.bufs, p.lostBufs, p.nextBuf, HeldBufs(f, b), bufs);
    OwnsCollect(p.batches.Keys, p.lostBatches, p.nextBatch, HeldBids(f, b), batches);
    OwnsCollect(p.entries, p.lostEntries, p.nextEntry, HeldEids(b), entries);
    assert (p.batches - batches).Keys == p.batches.Keys - batches;
  }

  lemma InvDelivers(s: State)
    requires Inv(s)
    ensures Delivering(s.front, s.back)
  {}

  /** Every step keeps the invariant, so long as buffered messages fit. */
  lemma StepKeeps(s: State, step: Step)
    requires Inv(s) && Fitting(step) && Enabled(s, step)
    ensures Inv(Apply(s, step))
  {
    hide Inv, AddEntry, GiveUp, AfterRespond, AfterFlush, AfterTake, AfterEmit, AfterReceive;
    match step
    case Put(_, _, _) => PutKeeps(s, step);
    case Start(_, _) => StartKeeps(s, step);
    case Receive(_) => ReceiveKeeps(s, step);
    case Tick(bid) => FlushKeeps(s, bid, Interval, Resume);
    case DrainInput(bid) => FlushKeeps(s, bid, Drain, Return);
    case Emit => EmitKeeps(s, step);
    case Take(_) => TakeKeeps(s, step);
    case CompileEntry(i, eid, marshalled) =>
      if marshalled {
        AddEntryKeeps(s, i, eid);
      } else {
        GiveUpKeeps(s, i, eid);
      }
    case Respond(i, answer) => RespondKeeps(s, i, answer);
    case CloseInput => CloseInputKeeps(s);
    case CloseOutput => NotYetClosed(s); CloseOutputKeeps(s, s.back.closed);
    case Exit(i) => ExitKeeps(s, i);
    case CloseReturns => NotYetClosed(s); CloseOutputKeeps(s, true);
    case Collect(bufs, batches, entries) => CollectKeeps(s, bufs, batches, entries);
  }

  lemma {:induction false} RunKeeps(s: State, steps: seq<Step>, t: State)
    requires Inv(s) && Reaches(s, steps, t)
    ensures Inv(t)
    decreases steps
  {
    hide Inv, Enabled, Apply;
    if steps != [] {
      StepKeeps(s, steps[0]);
      RunKeeps(Apply(s, steps[0]), steps[1..], t);
    }
  }
}
