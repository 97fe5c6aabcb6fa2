/**
 The aggregate loop and the flush routine over real batch and entry objects.
 Time enters as events: a tick says whether the flush interval has passed.
 */
module Workers {
  import opened Bytes
  import opened Sizes
  import opened Packing
  import opened Batches
  import opened Compiler
  import opened Flush

  class BatchPool {
    var free: set<Batch>

    ghost predicate Valid()
      reads this, free
    {
      forall b <- free :: b.State() == EMPTY
    }

    method Get() returns (b: Batch)
      requires Valid()
      modifies this
      ensures Valid() && b.State() == EMPTY && b !in free
      ensures free == old(free) - {b}
      ensures b in old(free) || fresh(b)
    {
      var reuse: bool := *;
      if reuse && free != {} {
        b :| b in free;
        free := free - {b};
      } else {
        b := new Batch();
      }
    }

    method Put(b: Batch)
      requires Valid() && b !in free
      modifies this, b
      ensures Valid() && free == old(free) + {b}
    {
      b.Reset();
      free := free + {b};
    }
  }

  datatype Event = Arrived(m: Message) | Ticked(due: bool) | Closed

  /** The batch that leaves, if any, and the batch that is filled next. */
  datatype Reaction = Reaction(off: Option<BatchState>, next: BatchState)

  function React(current: BatchState, e: Event): Reaction {
    match e
    case Closed => Reaction(Some(current.(flushReason := Drain)), EMPTY)
    case Ticked(due) =>
      if due then Reaction(Some(current.(flushReason := Interval)), EMPTY) else Reaction(None, current)
    case Arrived(m) =>
      var attempt := TryAdd(current, m);
      if attempt.added then Reaction(None, attempt.state)
      else Reaction(Some(current.(flushReason := Size)), TryAdd(EMPTY, m).state)
  }

  function Listed(off: Option<BatchState>): seq<BatchState> { if off.None? then [] else [off.value] }

  /** The batches handed to the output channel, from `current` on. */
  function Sends(current: BatchState, events: seq<Event>): seq<BatchState>
    decreases |events|
  {
    if events == [] then []
    else
      var r := React(current, events[0]);
      Listed(r.off) + if events[0].Closed? then [] else Sends(r.next, events[1..])
  }

  ghost predicate Hold(bs: seq<Batch>, states: seq<BatchState>)
    reads bs
  {
    |bs| == |states| && forall i :: 0 <= i < |bs| ==> bs[i].State() == states[i]
  }

  /** Sends the current batch off and takes another one from the pool. */
  method SendOff(pool: BatchPool, current: Batch, reason: FlushReason) returns (next: Batch)
    requires pool.Valid() && current !in pool.free
    modifies pool, current
    ensures pool.Valid() && next.State() == EMPTY && next != current && next !in pool.free
    ensures current !in pool.free && pool.free <= old(pool.free)
    ensures next in old(pool.free) || fresh(next)
    ensures current.State() == old(current.State()).(flushReason := reason)
  {
    current.flushReason := reason;
    next := pool.Get();
  }

  /** One turn of the select loop: `off` says that the batch left. */
  method Handle(pool: BatchPool, current: Batch, e: Event) returns (off: bool, next: Batch)
    requires pool.Valid() && current !in pool.free
    modifies pool, pool.free, current
    ensures pool.Valid() && pool.free <= old(pool.free) && current !in pool.free && next !in pool.free
    ensures off <==> React(old(current.State()), e).off.Some?
    ensures next.State() == React(old(current.State()), e).next
    ensures off ==> next != current && (next in old(pool.free) || fresh(next))
    ensures off ==> current.State() == React(old(current.State()), e).off.value
    ensures !off ==> next == current
    ensures e == Ticked(false) ==> !off && current.State() == old(current.State())
    ensures off ==> current.messages == old(current.messages)
    ensures off ==>
              current.flushReason == (match e case Closed => Drain case Ticked(_) => Interval case Arrived(_) => Size)
  {
    hide TryAdd;
    next := current;
    off := false;
    match e {
      case Closed =>
        off := true;
        next := SendOff(pool, current, Drain);
      case Ticked(due) =>
        if due {
          off := true;
          next := SendOff(pool, current, Interval);
        }
      case Arrived(m) =>
        var added := current.TryAddMessage(m);
        if !added {
          off := true;
          next := SendOff(pool, current, Size);
          var _ := next.TryAddMessage(m);
        }
    }
  }

  /** What has been sent, and what the rest of the events will send. */
  ghost predicate Remains(gone: seq<BatchState>, current: BatchState, events: seq<Event>, n: nat) {
    n <= |events| && gone + Sends(current, events[n..]) == Sends(EMPTY, events)
  }

  lemma RemainsStep(gone: seq<BatchState>, current: BatchState, events: seq<Event>, n: nat)
    requires Remains(gone, current, events, n) && n < |events|
    ensures var r := React(current, events[n]);
            if events[n].Closed? then gone + Listed(r.off) == Sends(EMPTY, events)
            else Remains(gone + Listed(r.off), r.next, events, n + 1)
  {
    hide React, Listed;
    var r, rest := React(current, events[n]), events[n + 1..];
    assert events[n..][0] == events[n] && events[n..][1..] == rest;
    var all := Sends(current, events[n..]);
    if events[n].Closed? {
      assert all == Listed(r.off) + [];
    } else {
      assert all == Listed(r.off) + Sends(r.next, rest);
      hide Sends;
      Rebracket(gone, Listed(r.off), Sends(r.next, rest));
    }
  }

  lemma RemainsEnds(events: seq<Event>)
    ensures Remains([], EMPTY, events, 0)
    ensures forall gone, current | Remains(gone, current, events, |events|) ::
              gone == Sends(EMPTY, events)
  {
    assert events[0..] == events;
    forall gone, current | Remains(gone, current, events, |events|) ensures gone == Sends(EMPTY, events) {
      assert gone + [] == gone;
    }
  }

  /** The batches handed over so far are apart from the pool and from the batch being filled. */
  ghost predicate Handed(sent: seq<Batch>, gone: seq<BatchState>, current: Batch, free: set<Batch>)
    reads sent
  {
    && Distinct(sent) && Hold(sent, gone)
    && current !in sent && current !in free
    && forall b <- sent :: b !in free
  }

  lemma HandOver(sent: seq<Batch>, gone: seq<BatchState>, current: Batch, next: Batch, free: set<Batch>)
    requires Handed(sent, gone, current, free)
    requires next !in sent && next != current && next !in free
    ensures Handed(sent + [current], gone + [current.State()], next, free)
  {}

  /** One turn of the loop on everything handed over so far. */
  method Turn(pool: BatchPool, sent: seq<Batch>, current: Batch, e: Event, ghost gone: seq<BatchState>)
    returns (sent': seq<Batch>, next: Batch)
    requires pool.Valid() && Handed(sent, gone, current, pool.free)
    modifies pool, pool.free, current
    ensures pool.Valid() && pool.free <= old(pool.free)
    ensures var r := React(old(current.State()), e);
            next.State() == r.next && Handed(sent', gone + Listed(r.off), next, pool.free)
    ensures forall b <- [next] + sent' :: b == current || b in sent || b in old(pool.free) || fresh(b)
  {
    hide React;
    ghost var r := React(current.State(), e);
    var off;
    off, next := Handle(pool, current, e);
    assert Hold(sent, gone);
    if off {
      HandOver(sent, gone, current, next, pool.free);
      sent' := sent + [current];
    } else {
      assert gone + [] == gone;
      sent' := sent;
    }
  }

  method Aggregate(pool: BatchPool, events: seq<Event>) returns (sent: seq<Batch>)
    requires pool.Valid()
    modifies pool, pool.free
    ensures pool.Valid() && pool.free <= old(pool.free)
    ensures Distinct(sent) && Hold(sent, Sends(EMPTY, events))
    ensures forall b <- sent :: b !in pool.free && (b in old(pool.free) || fresh(b))
  {
    hide Sends, React, Remains, Listed, Hold, Distinct;
    var current := pool.Get();
    sent := [];
    var n := 0;
    ghost var gone: seq<BatchState> := [];
    NothingHanded(current, pool.free);
    RemainsEnds(events);
    while n < |events|
      invariant n <= |events|
      invariant pool.Valid() && pool.free <= old(pool.free)
      invariant Handed(sent, gone, current, pool.free)
      invariant forall b <- [current] + sent :: b in old(pool.free) || fresh(b)
      invariant Remains(gone, current.State(), events, n)
    {
      ghost var r := React(current.State(), events[n]);
      RemainsStep(gone, current.State(), events, n);
      assert current in [current] + sent;
      sent, current := Turn(pool, sent, current, events[n], gone);
      gone := gone + Listed(r.off);
      if events[n].Closed? {
        return;
      }
      n := n + 1;
    }
  }

  lemma NothingHanded(current: Batch, free: set<Batch>)
    requires current !in free
    ensures Handed([], [], current, free)
  {}

  // What the aggregate loop sends

  function Arrivals(events: seq<Event>): seq<Message> {
    if events == [] || events[0].Closed? then []
    else (if events[0].Arrived? then [events[0].m] else []) + Arrivals(events[1..])
  }

  function Contents(bs: seq<BatchState>): seq<Message> {
    if bs == [] then [] else bs[0].messages + Contents(bs[1..])
  }

  lemma ContentsCons(b: BatchState, bs: seq<BatchState>)
    ensures Contents([b] + bs) == b.messages + Contents(bs)
  {
    assert ([b] + bs)[1..] == bs;
  }

  /**
   Up to the close, every message that arrived is sent, once and in order, in
   batches that are packed within the limits.
   */
  lemma {:induction false} SendsEverything(current: BatchState, events: seq<Event>)
    requires Packed(current) && AllFit(Arrivals(events))
    ensures forall b <- Sends(current, events) :: Packed(b)
    ensures Closed in events ==> Contents(Sends(current, events)) == current.messages + Arrivals(events)
    decreases |events|
  {
    hide Packed, React, Fits, Contents, Listed;
    if events != [] {
      var rest, r := events[1..], React(current, events[0]);
      assert events == [events[0]] + rest;
      forall m <- Arrivals(rest) | !events[0].Closed? ensures Fits(m) { assert m in Arrivals(events); }
      assert events[0].Arrived? ==> Fits(events[0].m) by {
        assert events[0].Arrived? ==> events[0].m in Arrivals(events);
      }
      ReactKeeps(current, events[0]);
      if events[0].Closed? {
        assert Listed(r.off) + [] == Listed(r.off);
        CloseReaction(current);
        assert Arrivals(events) == [];
      } else {
        SendsEverything(r.next, rest);
        ContentsAppend(Listed(r.off), Sends(r.next, rest));
        var here := if events[0].Arrived? then [events[0].m] else [];
        assert Arrivals(events) == here + Arrivals(rest);
        Rebracket(Contents(Listed(r.off)), r.next.messages, Arrivals(rest));
        Rebracket(current.messages, here, Arrivals(rest));
      }
    }
  }

  /** A reaction neither loses nor reorders a message. */
  lemma ReactKeeps(current: BatchState, e: Event)
    requires Packed(current) && (e.Arrived? ==> Fits(e.m))
    ensures var r := React(current, e);
            && Packed(r.next)
            && (forall b <- Listed(r.off) :: Packed(b))
            && Contents(Listed(r.off)) + r.next.messages == current.messages + if e.Arrived? then [e.m] else []
  {
    hide Packed, TryAdd;
    FlushReasonIrrelevant(current, Interval);
    FlushReasonIrrelevant(current, Size);
    FlushReasonIrrelevant(current, Drain);
    EmptyIsPacked();
    if e.Arrived? {
      TryAddMeaning(current, e.m);
      FreshBatchTakes(e.m);
    }
    var r := React(current, e);
    if r.off.Some? {
      ContentsCons(r.off.value, []);
      assert Listed(r.off) == [r.off.value] + [];
    }
  }

  lemma CloseReaction(current: BatchState)
    ensures Contents(Listed(React(current, Closed).off)) == current.messages + []
  {
    var last := current.(flushReason := Drain);
    ContentsCons(last, []);
    assert [last] + [] == [last];
  }

  lemma {:induction false} ContentsAppend(a: seq<BatchState>, b: seq<BatchState>)
    ensures Contents(a + b) == Contents(a) + Contents(b)
  {
    if a == [] {
      assert a + b == b;
    } else {
      assert (a + b)[1..] == a[1..] + b;
      ContentsAppend(a[1..], b);
    }
  }

  // Why a batch leaves

  /** The messages the loop holds after these events. */
  function Held(current: BatchState, events: seq<Event>): BatchState
    decreases |events|
  {
    if events == [] then current else Held(React(current, events[0]).next, events[1..])
  }

  function UntilClose(events: seq<Event>): seq<Event> {
    if events == [] || events[0].Closed? then [] else [events[0]] + UntilClose(events[1..])
  }

  function DueTicks(events: seq<Event>): nat {
    if events == [] then 0 else (if events[0] == Ticked(true) then 1 else 0) + DueTicks(events[1..])
  }

  function WithReason(bs: seq<BatchState>, reason: FlushReason): nat {
    if bs == [] then 0 else (if bs[0].flushReason == reason then 1 else 0) + WithReason(bs[1..], reason)
  }

  lemma {:induction false} WithReasonAppend(a: seq<BatchState>, b: seq<BatchState>, reason: FlushReason)
    ensures WithReason(a + b, reason) == WithReason(a, reason) + WithReason(b, reason)
  {
    if a == [] {
      assert a + b == b;
    } else {
      WithReasonAppend(a[1..], b, reason);
      assert (a + b)[1..] == a[1..] + b;
    }
  }

  /** A batch leaves on each due tick, one when the channel is closed, and otherwise only for its size. */
  lemma {:induction false} ReasonsCounted(current: BatchState, events: seq<Event>)
    ensures var sent := Sends(current, events);
            && WithReason(sent, Interval) == DueTicks(UntilClose(events))
            && WithReason(sent, Drain) == (if Closed in events then 1 else 0)
            && |sent| == WithReason(sent, Interval) + WithReason(sent, Drain) + WithReason(sent, Size)
    decreases |events|
  {
    hide TryAdd;
    if events != [] {
      var e, rest := events[0], events[1..];
      var r := React(current, e);
      var later := if e.Closed? then [] else Sends(r.next, rest);
      assert events == [e] + rest;
      assert UntilClose(events) == if e.Closed? then [] else [e] + UntilClose(rest);
      WithReasonAppend(Listed(r.off), later, Interval);
      WithReasonAppend(Listed(r.off), later, Drain);
      WithReasonAppend(Listed(r.off), later, Size);
      if !e.Closed? {
        ReasonsCounted(r.next, rest);
        assert ([e] + UntilClose(rest))[1..] == UntilClose(rest);
      }
    }
  }

  /** With all up to it sent, the batch could not have taken the message that comes next. */
  ghost predicate FullBy(upTo: seq<Message>, b: BatchState, all: seq<Message>) {
    && |upTo| < |all| && upTo == all[..|upTo|]
    && RequestBytes(b.messages + [all[|upTo|]]) > MAX_REQUEST_SIZE
  }

  ghost predicate FullAt(sent: seq<BatchState>, i: nat, all: seq<Message>) {
    i < |sent| && FullBy(Contents(sent[..i + 1]), sent[i], all)
  }

  lemma FullFirst(b: BatchState, later: seq<BatchState>, m: Message, rest: seq<Message>)
    requires RequestBytes(b.messages + [m]) > MAX_REQUEST_SIZE
    ensures FullAt([b] + later, 0, b.messages + ([m] + rest))
  {
    hide RequestBytes;
    ContentsCons(b, []);
    assert ([b] + later)[..1] == [b] + [] && b.messages + Contents([]) == b.messages;
    assert (b.messages + ([m] + rest))[|b.messages|] == m;
  }

  lemma FullLater(first: seq<BatchState>, later: seq<BatchState>, k: nat, all: seq<Message>)
    requires FullAt(later, k, all)
    ensures FullAt(first + later, |first| + k, Contents(first) + all)
  {
    hide FullBy, Contents;
    var upTo := later[..k + 1];
    assert (first + later)[..|first| + k + 1] == first + upTo;
    assert (first + later)[|first| + k] == later[k];
    ContentsAppend(first, upTo);
    FullShifted(Contents(first), Contents(upTo), later[k], all);
  }

  lemma FullShifted(before: seq<Message>, upTo: seq<Message>, b: BatchState, all: seq<Message>)
    requires FullBy(upTo, b, all)
    ensures FullBy(before + upTo, b, before + all)
  {
    hide RequestBytes;
    assert (before + all)[|before| + |upTo|] == all[|upTo|];
    assert (before + all)[..|before| + |upTo|] == before + all[..|upTo|];
  }

  lemma SizeReaction(current: BatchState, e: Event)
    requires Packed(current) && (e.Arrived? ==> Fits(e.m))
    ensures var r := React(current, e);
            r.off.Some? && r.off.value.flushReason == Size ==>
              && e.Arrived? && r.off.value.messages == current.messages && r.next.messages == [e.m]
              && RequestBytes(current.messages + [e.m]) > MAX_REQUEST_SIZE
  {
    hide Packed, TryAdd, RequestBytes;
    if e.Arrived? {
      TryAddMeaning(current, e.m);
      FreshBatchTakes(e.m);
    }
  }

  /** A batch that left for its size could not have taken the message that arrived next. */
  lemma {:induction false} SizeMeansFull(current: BatchState, events: seq<Event>, i: nat)
    requires Packed(current) && AllFit(Arrivals(events))
    requires i < |Sends(current, events)| && Sends(current, events)[i].flushReason == Size
    ensures FullAt(Sends(current, events), i, current.messages + Arrivals(events))
    decreases |events|
  {
    hide Packed, React, Fits, FullAt, Contents, Arrivals;
    var e, rest := events[0], events[1..];
    var r := React(current, e);
    FirstArrival(events);
    ReactKeeps(current, e);
    SizeReaction(current, e);
    if r.off.Some? && i == 0 {
      FullFirst(r.off.value, Sends(r.next, rest), e.m, Arrivals(rest));
    } else {
      StillOpen(current, events, i);
      var first := Listed(r.off);
      SizeMeansFull(r.next, rest, i - |first|);
      FullLater(first, Sends(r.next, rest), i - |first|, r.next.messages + Arrivals(rest));
      var here := if e.Arrived? then [e.m] else [];
      Rebracket(current.messages, here, Arrivals(rest));
      Rebracket(Contents(first), r.next.messages, Arrivals(rest));
    }
  }

  lemma StillOpen(current: BatchState, events: seq<Event>, i: nat)
    requires events != [] && i < |Sends(current, events)|
    requires React(current, events[0]).off.None? || i > 0
    ensures !events[0].Closed?
  {}

  lemma FirstArrival(events: seq<Event>)
    requires events != [] && AllFit(Arrivals(events))
    ensures !events[0].Closed? ==>
              Arrivals(events) == (if events[0].Arrived? then [events[0].m] else []) + Arrivals(events[1..])
    ensures !events[0].Closed? ==> AllFit(Arrivals(events[1..]))
    ensures events[0].Arrived? ==> Fits(events[0].m)
  {
    if !events[0].Closed? {
      forall m <- Arrivals(events[1..]) ensures Fits(m) { assert m in Arrivals(events); }
      assert events[0].Arrived? ==> events[0].m in Arrivals(events);
    }
  }

  /** What happens first does not depend on what happens later: the loop goes on from the batch it holds. */
  lemma {:induction false} SendsInTurn(current: BatchState, a: seq<Event>, b: seq<Event>)
    requires Closed !in a
    ensures Sends(current, a + b) == Sends(current, a) + Sends(Held(current, a), b)
    decreases |a|
  {
    hide React, Listed;
    if a == [] {
      assert a + b == b;
    } else {
      SendsInTurn(React(current, a[0]).next, a[1..], b);
      assert (a + b)[1..] == a[1..] + b;
    }
  }

  /** A due tick sends just what is held, under its own reason; one that is not due changes nothing. */
  lemma TickSends(current: BatchState, events: seq<Event>)
    requires Closed !in events
    ensures var held := Held(current, events);
            && Sends(current, events + [Ticked(true)]) == Sends(current, events) + [held.(flushReason := Interval)]
            && Sends(current, events + [Ticked(false)]) == Sends(current, events)
            && Sends(held, [Ticked(false)]) == [] && Held(held, [Ticked(false)]) == held
            && Held(held, [Ticked(true)]) == EMPTY
  {
    var held := Held(current, events);
    SendsInTurn(current, events, [Ticked(true)]);
    SendsInTurn(current, events, [Ticked(false)]);
    assert [Ticked(true)][1..] == [] && [Ticked(false)][1..] == [];
    assert Sends(held, [Ticked(true)]) == [held.(flushReason := Interval)] + Sends(EMPTY, []);
  }

  lemma {:induction false} RequestBytesPrefix(ms: seq<Message>, n: nat)
    requires n <= |ms|
    ensures RequestBytes(ms[..n]) <= RequestBytes(ms)
    decreases |ms|
  {
    hide RequestBytes;
    if n < |ms| {
      var front := ms[..|ms| - 1];
      RequestBytesPrefix(front, n);
      RequestBytesSnoc(front, ms[|ms| - 1]);
      assert front[..n] == ms[..n] && ms == front + [ms[|ms| - 1]];
    } else {
      assert ms[..n] == ms;
    }
  }

  /** While everything fits one request, no tick is due and the channel is open, nothing leaves. */
  lemma NothingLeavesUnasked(current: BatchState, events: seq<Event>)
    requires Packed(current) && AllFit(Arrivals(events)) && Closed !in events && DueTicks(UntilClose(events)) == 0
    requires RequestBytes(current.messages + Arrivals(events)) <= MAX_REQUEST_SIZE
    ensures Sends(current, events) == []
  {
    hide Packed, RequestBytes, Sends;
    var sent, all := Sends(current, events), current.messages + Arrivals(events);
    ReasonsCounted(current, events);
    if sent != [] {
      AllForSize(sent);
      SizeMeansFull(current, events, 0);
      assert FullAt(sent, 0, all);
      var n := |Contents(sent[..1])|;
      ContentsCons(sent[0], []);
      assert sent[..1] == [sent[0]] + [] && sent[0].messages + [] == sent[0].messages;
      assert sent[0].messages + [all[n]] == all[..n + 1];
      RequestBytesPrefix(all, n + 1);
      assert false;
    }
  }

  lemma {:induction false} ReasonBound(bs: seq<BatchState>, reason: FlushReason)
    ensures WithReason(bs, reason) <= |bs|
    ensures WithReason(bs, reason) == |bs| ==> forall i :: 0 <= i < |bs| ==> bs[i].flushReason == reason
  {
    if bs != [] {
      ReasonBound(bs[1..], reason);
      assert forall i :: 0 < i < |bs| ==> bs[i] == bs[1..][i - 1];
    }
  }

  lemma AllForSize(bs: seq<BatchState>)
    requires |bs| == WithReason(bs, Size)
    ensures forall i :: 0 <= i < |bs| ==> bs[i].flushReason == Size
  {
    ReasonBound(bs, Size);
  }

  // Flush

  /** The fate of a request depends on its length and the answers only. */
  lemma {:induction false} SendIsUniform<A, B>(a: seq<A>, b: seq<B>, answers: seq<Answer>)
    requires |a| == |b|
    ensures Send(a, answers).outcome == Send(b, answers).outcome
    ensures |Send(a, answers).held| == |Send(b, answers).held|
    decreases |answers|
  {
    if answers != [] && answers[0].Answered? {
      PickUniform(a, b, answers[0].codes);
      SendIsUniform(Pick(a, answers[0].codes, true), Pick(b, answers[0].codes, true), answers[1..]);
    }
  }

  lemma {:induction false} PickUniform<A, B>(a: seq<A>, b: seq<B>, codes: seq<bool>)
    requires |a| == |b|
    ensures |Pick(a, codes, true)| == |Pick(b, codes, true)|
  {
    if a != [] && codes != [] {
      PickUniform(a[1..], b[1..], codes[1..]);
    }
  }

  datatype Report = NothingToSend | CompileError | Returned(outcome: Outcome)

  /** What a released request brings back, of the entries taken for it. */
  lemma BackInPool(before: set<Entry>, taken: seq<Entry>, answers: seq<Answer>)
    requires Distinct(taken)
    ensures var held := Send(taken, answers).held;
            Members(taken) <= before - Members(taken) + Members(held) <==> NothingSettledBeforeRetry(taken, answers)
  {
    hide NothingSettledBeforeRetry, Send, Distinct;
    var held := Send(taken, answers).held;
    HeldWholeIff(taken, answers);
    HeldAmong(taken, answers);
    MembersCount(taken);
    MembersCount(held);
    if Members(taken) <= before - Members(taken) + Members(held) {
      assert Members(taken) == Members(held);
    }
  }

  lemma {:induction false} MembersCount(es: seq<Entry>)
    requires Distinct(es)
    ensures |Members(es)| == |es|
  {
    if es != [] {
      var front, last := es[..|es| - 1], es[|es| - 1];
      MembersCount(front);
      MembersSnoc(front, last);
      assert es == front + [last] && last !in front;
    }
  }

  lemma {:induction false} HeldAmong(records: seq<Entry>, answers: seq<Answer>)
    requires Distinct(records)
    ensures Distinct(Send(records, answers).held)
    ensures forall e <- Send(records, answers).held :: e in records
    decreases |answers|
  {
    if Retries(answers) && !LooksUpBeyond(|records|, answers[0].codes) {
      PickAmong(records, answers[0].codes);
      HeldAmong(Pick(records, answers[0].codes, true), answers[1..]);
    }
  }

  lemma {:induction false} PickAmong(records: seq<Entry>, codes: seq<bool>)
    requires Distinct(records)
    ensures Distinct(Pick(records, codes, true))
    ensures forall e <- Pick(records, codes, true) :: e in records
  {
    if records != [] && codes != [] {
      var rest := Pick(records[1..], codes[1..], true);
      PickAmong(records[1..], codes[1..]);
      assert Pick(records, codes, true) == if codes[0] then [records[0]] + rest else rest;
      assert records[0] !in records[1..];
    }
  }

  class FlushWorker {
    const batches: BatchPool
    const compiler: BatchCompiler
    var messagePool: multiset<nat>

    constructor (batches: BatchPool, compiler: BatchCompiler)
      ensures this.batches == batches && this.compiler == compiler && messagePool == multiset{}
    {
      this.batches, this.compiler, messagePool := batches, compiler, multiset{};
    }

    ghost predicate Valid()
      reads this, batches, batches.free, compiler, compiler.pool, compiler.pool.free
    {
      batches.Valid() && compiler.pool.Valid()
    }

    /** Sends the request, and on return gives back the entries it still holds. */
    method Deliver(entries: seq<Entry>, answers: seq<Answer>) returns (outcome: Outcome)
      requires compiler.pool.Valid() && Distinct(entries) && forall e <- entries :: e !in compiler.pool.free
      modifies compiler.pool, entries
      ensures compiler.pool.Valid() && outcome == Send(entries, answers).outcome
      ensures compiler.pool.free
              == old(compiler.pool.free) + if outcome.Waiting? then {} else Members(Send(entries, answers).held)
    {
      hide Send;
      HeldAmong(entries, answers);
      var held;
      ghost var acked;
      outcome, held, acked := SendRequest(entries, answers);
      assert forall i :: 0 <= i < |held| ==> held[i] in entries;
      if !outcome.Waiting? {
        compiler.Release(held);
      }
    }

    /**
     An empty batch is not given back. Otherwise the batch and its message buffers
     are, whatever compiling says. Of the entries taken for the request, those it
     still holds on return are given back: all of them exactly when no attempt
     settled a record and was retried. A `Waiting` report is a send still going on.
     */
    method FlushBatch(b: Batch, answers: seq<Answer>) returns (report: Report, ghost taken: seq<Entry>)
      requires Valid() && b !in batches.free && AllFit(b.messages)
      modifies this, b, batches, batches.free, compiler, compiler.pool, compiler.pool.free
      ensures Valid()
      ensures report.NothingToSend? <==> old(b.messages) == []
      ensures report.NothingToSend? ==>
                && b.State() == old(b.State()) && batches.free == old(batches.free)
                && messagePool == old(messagePool) && compiler.pool.free == old(compiler.pool.free)
      ensures !report.NothingToSend? ==>
                && b in batches.free && batches.free == old(batches.free) + {b}
                && messagePool == old(messagePool) + multiset(Bufs(old(b.messages)))
      ensures report.CompileError? <==>
                old(b.messages) != [] &&
                SomeGroupFails(compiler.marshalFails, compiler.keys, old(compiler.keysUsed), NextFit(old(b.messages)))
      ensures report.Returned? ==>
                report.outcome == Send(SentGroups(compiler.md5, compiler.keys, old(compiler.keysUsed),
                                                  NextFit(old(b.messages))), answers).outcome
      ensures Distinct(taken) && forall e <- taken :: e in old(compiler.pool.free) || fresh(e)
      ensures report.CompileError? ==> taken != [] && compiler.pool.free == old(compiler.pool.free) + Members(taken)
      ensures report.Returned? ==> |taken| == |NextFit(old(b.messages))|
      ensures report.Returned? && report.outcome.Waiting? ==>
                compiler.pool.free == old(compiler.pool.free) - Members(taken)
      ensures report.Returned? && !report.outcome.Waiting? ==>
                && compiler.pool.free
                   == old(compiler.pool.free) - Members(taken) + Members(Send(taken, answers).held)
                && (Members(taken) <= compiler.pool.free <==> NothingSettledBeforeRetry(taken, answers))
    {
      hide NextFit, SentGroups, SomeGroupFails, FailsFirstAt, Send, AllFit, NothingSettledBeforeRetry, Members;
      hide Bufs;
      if |b.messages| == 0 {
        return NothingToSend, [];
      }
      ghost var groups := NextFit(b.messages);
      ghost var first := compiler.keysUsed;
      ghost var before := compiler.pool.free;
      var compiled;
      compiled, taken := compiler.CompileBatch(b.messages);
      messagePool := messagePool + multiset(Bufs(b.messages));
      batches.Put(b);
      if compiled.Failed? {
        return CompileError, taken;
      }
      SendIsUniform(compiled.entries, SentGroups(compiler.md5, compiler.keys, first, groups), answers);
      SentGroupsLength(compiler.md5, compiler.keys, first, groups);
      BackInPool(before, taken, answers);
      var outcome := Deliver(compiled.entries, answers);
      report := Returned(outcome);
    }
  }

  function Bufs(ms: seq<Message>): (ids: seq<nat>)
    ensures |ids| == |ms| && forall i :: 0 <= i < |ms| ==> ids[i] == ms[i].buf
  {
    if ms == [] then [] else [ms[0].buf] + Bufs(ms[1..])
  }
}
