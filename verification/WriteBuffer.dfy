/**
 The generator's write buffer: items wait until there are enough for one
 request, and what the service did not process waits again.
 */
module WriteBuffer {
  import opened Bytes

  type Item = seq<byte>

  const PUT_MANY_BATCH_LIMIT := 25

  /** The items the service did not process, by table, in the order the map is walked. */
  datatype Unprocessed = Unprocessed(table: string, items: seq<Item>)

  /** `written` is what the service stored; the program only sees the unprocessed items. */
  datatype Response = Failed | Answered(written: multiset<Item>, unprocessed: seq<Unprocessed>)

  datatype State = State(buffer: seq<Item>, put: multiset<Item>, written: multiset<Item>, dropped: multiset<Item>)

  /** The critical sections of the buffer's lock. Callers and the ticker run them in any order. */
  datatype Step = Add(item: Item) | Flush(response: Response)

  // Meaning

  function Batch(buffer: seq<Item>): (b: seq<Item>)
    ensures |b| <= PUT_MANY_BATCH_LIMIT && b <= buffer && (b == [] <==> buffer == [])
  {
    if |buffer| < PUT_MANY_BATCH_LIMIT then buffer else buffer[..PUT_MANY_BATCH_LIMIT]
  }

  /** The unprocessed items of this table, which wait again, or those of other tables, which are only reported. */
  function Returned(table: string, us: seq<Unprocessed>, own: bool): seq<Item> {
    if us == [] then []
    else
      var u := us[|us| - 1];
      Returned(table, us[..|us| - 1], own) + if (u.table == table) == own then u.items else []
  }

  function AllItems(us: seq<Unprocessed>): seq<Item> {
    if us == [] then [] else AllItems(us[..|us| - 1]) + us[|us| - 1].items
  }

  /** Every item of an answered request was either stored or returned. */
  ghost predicate Complete(sent: seq<Item>, r: Response) {
    r.Answered? ==> r.written + multiset(AllItems(r.unprocessed)) == multiset(sent)
  }

  ghost predicate Enabled(s: State, step: Step) {
    step.Flush? && s.buffer != [] ==> Complete(Batch(s.buffer), step.response)
  }

  function Apply(table: string, s: State, step: Step): State {
    match step
    case Add(item) => s.(buffer := s.buffer + [item], put := s.put + multiset{item})
    case Flush(r) =>
      if s.buffer == [] || r.Failed? then s
      else
        State(s.buffer[|Batch(s.buffer)|..] + Returned(table, r.unprocessed, true), s.put,
              s.written + r.written, s.dropped + multiset(Returned(table, r.unprocessed, false)))
  }

  const EMPTY := State([], multiset{}, multiset{}, multiset{})

  // The program

  class DynamoTableConn {
    const table: string
    var buffer: seq<Item>
    ghost var put: multiset<Item>
    ghost var written: multiset<Item>
    ghost var dropped: multiset<Item>

    ghost function Now(): State
      reads this
    {
      State(buffer, put, written, dropped)
    }

    constructor (table: string)
      ensures this.table == table && Now() == EMPTY
    {
      this.table := table;
      buffer := [];
      put, written, dropped := multiset{}, multiset{}, multiset{};
    }

    method AddToBuffer(item: Item)
      modifies this
      ensures Now() == Apply(table, old(Now()), Add(item)) && buffer == old(buffer) + [item]
    {
      buffer := buffer + [item];
      put := put + multiset{item};
    }

    /** Unprocessed items of this table wait again, behind all others. */
    method Requeue(us: seq<Unprocessed>)
      modifies `buffer
      ensures buffer == old(buffer) + Returned(table, us, true)
    {
      for i := 0 to |us|
        invariant buffer == old(buffer) + Returned(table, us[..i], true)
      {
        assert us[..i + 1][..i] == us[..i];
        if us[i].table == table {
          buffer := buffer + us[i].items;
        }
      }
      assert us[..|us|] == us;
    }

    /** An error leaves the buffer as it was. */
    method FlushBatchFromBuffer(response: Response) returns (sent: seq<Item>, ok: bool)
      modifies this
      ensures Now() == Apply(table, old(Now()), Flush(response))
      ensures sent == Batch(old(buffer)) && sent <= old(buffer)
      ensures |sent| == 25 || (|sent| < 25 && sent == old(buffer))
      ensures !ok <==> old(buffer) != [] && response.Failed?
      ensures !ok ==> Now() == old(Now())
    {
      if |buffer| == 0 {
        return [], true;
      }
      var cut := PUT_MANY_BATCH_LIMIT;
      if |buffer| < PUT_MANY_BATCH_LIMIT {
        cut := |buffer|;
      }
      sent := buffer[..cut];
      if response.Failed? {
        return sent, false;
      }
      buffer := buffer[cut..];
      Requeue(response.unprocessed);
      written := written + response.written;
      dropped := dropped + multiset(Returned(table, response.unprocessed, false));
      ok := true;
    }

    /** Sends a batch once there are enough items. `response` answers it. */
    method PutBuffered(item: Item, response: Response) returns (ok: bool)
      modifies this
      ensures Now() == var added := Apply(table, old(Now()), Add(item));
                       if |added.buffer| < PUT_MANY_BATCH_LIMIT then added else Apply(table, added, Flush(response))
      ensures !ok ==> response.Failed? && buffer == old(buffer) + [item]
    {
      AddToBuffer(item);
      ok := true;
      if |buffer| >= PUT_MANY_BATCH_LIMIT {
        var _, sent := FlushBatchFromBuffer(response);
        ok := sent;
      }
    }

    /** Sends until nothing is left; `responses` are the service's answers so far. */
    method FlushBuffer(responses: seq<Response>) returns (used: nat, outcome: Outcome)
      modifies this
      ensures used <= |responses|
      ensures Now() == Run(table, old(Now()), Flushes(responses[..used]))
      ensures outcome == Emptied ==> buffer == []
      ensures outcome == Stopped ==> used > 0 && responses[used - 1].Failed? && buffer != []
      ensures outcome == Waiting ==> used == |responses| && buffer != []
    {
      hide Run, Flushes, Apply, Batch;
      used := 0;
      RunNothing(table, Now());
      while |buffer| > 0
        invariant used <= |responses|
        invariant Now() == Run(table, old(Now()), Flushes(responses[..used]))
        decreases |responses| - used
      {
        if used == |responses| {
          return used, Waiting;
        }
        RunSnoc(table, old(Now()), responses[..used], responses[used]);
        assert responses[..used + 1] == responses[..used] + [responses[used]];
        var _, ok := FlushBatchFromBuffer(responses[used]);
        used := used + 1;
        if !ok {
          return used, Stopped;
        }
      }
      outcome := Emptied;
    }
  }

  datatype Outcome = Emptied | Stopped | Waiting

  function Flushes(rs: seq<Response>): seq<Step> { seq(|rs|, i requires 0 <= i < |rs| => Flush(rs[i])) }

  // Whole runs

  function Run(table: string, s: State, steps: seq<Step>): State {
    if steps == [] then s else Apply(table, Run(table, s, steps[..|steps| - 1]), steps[|steps| - 1])
  }

  lemma RunNothing(table: string, s: State)
    ensures Run(table, s, Flushes([])) == s
  {}

  lemma RunSnoc(table: string, s: State, rs: seq<Response>, r: Response)
    ensures Run(table, s, Flushes(rs + [r])) == Apply(table, Run(table, s, Flushes(rs)), Flush(r))
  {
    assert Flushes(rs + [r])[..|rs|] == Flushes(rs);
  }

  /** Every answer of the run is complete. */
  ghost predicate Answers(table: string, s: State, steps: seq<Step>) {
    forall i :: 0 <= i < |steps| ==> Enabled(Run(table, s, steps[..i]), steps[i])
  }

  lemma {:induction false} AllItemsMeaning(us: seq<Unprocessed>, vs: seq<Unprocessed>)
    ensures AllItems(us + vs) == AllItems(us) + AllItems(vs)
    ensures |vs| == 1 ==> AllItems(vs) == vs[0].items
  {
    if vs == [] {
      assert us + vs == us;
    } else {
      var front, v := vs[..|vs| - 1], vs[|vs| - 1];
      AllItemsMeaning(us, front);
      assert (us + vs)[..|us + vs| - 1] == us + front;
      Rebracket(AllItems(us), AllItems(front), v.items);
      assert |vs| == 1 ==> front == [];
    }
  }

  /** Which items come back, and that they keep their order. */
  lemma {:induction false} ReturnedMeaning(table: string, us: seq<Unprocessed>, vs: seq<Unprocessed>, own: bool)
    ensures Returned(table, us + vs, own) == Returned(table, us, own) + Returned(table, vs, own)
    ensures |vs| == 1 ==> Returned(table, vs, own) == if (vs[0].table == table) == own then vs[0].items else []
  {
    if vs == [] {
      assert us + vs == us;
    } else {
      var front, v := vs[..|vs| - 1], vs[|vs| - 1];
      ReturnedMeaning(table, us, front, own);
      assert (us + vs)[..|us + vs| - 1] == us + front;
      var last := if (v.table == table) == own then v.items else [];
      Rebracket(Returned(table, us, own), Returned(table, front, own), last);
      assert |vs| == 1 ==> front == [];
    }
  }

  lemma {:induction false} ReturnedSplit(table: string, us: seq<Unprocessed>)
    ensures multiset(AllItems(us)) == multiset(Returned(table, us, true)) + multiset(Returned(table, us, false))
  {
    if us != [] {
      ReturnedSplit(table, us[..|us| - 1]);
    }
  }

  ghost predicate Conserved(s: State) { s.put == s.written + multiset(s.buffer) + s.dropped }

  lemma StepConserves(table: string, s: State, step: Step)
    requires Conserved(s) && Enabled(s, step)
    ensures Conserved(Apply(table, s, step))
  {
    hide Returned, AllItems;
    if step.Flush? && s.buffer != [] && step.response.Answered? {
      var us, n := step.response.unprocessed, |Batch(s.buffer)|;
      ReturnedSplit(table, us);
      assert s.buffer == s.buffer[..n] + s.buffer[n..];
      Moved(s.written, multiset(s.buffer[..n]), multiset(s.buffer[n..]), s.dropped, step.response.written,
            multiset(Returned(table, us, true)), multiset(Returned(table, us, false)));
    }
  }

  lemma Moved(w: multiset<Item>, sent: multiset<Item>, rest: multiset<Item>, d: multiset<Item>,
              now: multiset<Item>, own: multiset<Item>, other: multiset<Item>)
    requires sent == now + (own + other)
    ensures w + (sent + rest) + d == (w + now) + (rest + own) + (d + other)
  {}

  /**
   Nothing is lost or stored twice: whatever the order of puts, ticks and
   answers, the items put are those stored, those waiting, and those the
   service returned under a table that was not asked for.
   */
  lemma {:induction false} RunConserves(table: string, steps: seq<Step>)
    requires Answers(table, EMPTY, steps)
    ensures Conserved(Run(table, EMPTY, steps))
  {
    hide Apply, Enabled, Conserved;
    if steps == [] {
      NothingPut();
    } else {
      var n := |steps| - 1;
      assert forall i :: 0 <= i < n ==> steps[..n][..i] == steps[..i];
      RunConserves(table, steps[..n]);
      StepConserves(table, Run(table, EMPTY, steps[..n]), steps[n]);
    }
  }

  lemma NothingPut()
    ensures Conserved(EMPTY)
  {}

  /** The items put, and the items of the requests the service answered, in order. */
  function Puts(steps: seq<Step>): seq<Item> {
    if steps == [] then []
    else
      var last := steps[|steps| - 1];
      Puts(steps[..|steps| - 1]) + if last.Add? then [last.item] else []
  }

  function Sent(table: string, steps: seq<Step>): seq<Item> {
    if steps == [] then []
    else
      var last, s := steps[|steps| - 1], Run(table, EMPTY, steps[..|steps| - 1]);
      Sent(table, steps[..|steps| - 1])
      + if last.Flush? && last.response.Answered? then Batch(s.buffer) else []
  }

  predicate TakesAll(table: string, step: Step) {
    step.Flush? && step.response.Answered? ==> Returned(table, step.response.unprocessed, true) == []
  }

  /** While nothing comes back, the items put first are sent first, and the rest wait in order. */
  lemma {:induction false} FirstPutFirstSent(table: string, steps: seq<Step>)
    requires forall step <- steps :: TakesAll(table, step)
    ensures Puts(steps) == Sent(table, steps) + Run(table, EMPTY, steps).buffer
  {
    hide TakesAll, Returned, Apply;
    if steps != [] {
      var front, last := steps[..|steps| - 1], steps[|steps| - 1];
      FirstPutFirstSent(table, front);
      StepInOrder(table, Run(table, EMPTY, front), last);
      var now := if last.Flush? && last.response.Answered? then Batch(Run(table, EMPTY, front).buffer) else [];
      Rebracket(Sent(table, front), now, Run(table, EMPTY, steps).buffer);
      Rebracket(Sent(table, front), Run(table, EMPTY, front).buffer, if last.Add? then [last.item] else []);
    }
  }

  lemma StepInOrder(table: string, s: State, step: Step)
    requires TakesAll(table, step)
    ensures s.buffer + (if step.Add? then [step.item] else [])
            == (if step.Flush? && step.response.Answered? then Batch(s.buffer) else []) + Apply(table, s, step).buffer
  {
    hide Returned;
  }

  /** An answer that returns items under some other table. */
  ghost predicate Foreign(table: string, s: State, step: Step) {
    step.Flush? && s.buffer != [] && step.response.Answered? && Returned(table, step.response.unprocessed, false) != []
  }

  ghost predicate NoneForeign(table: string, steps: seq<Step>) {
    forall i :: 0 <= i < |steps| ==> !Foreign(table, Run(table, EMPTY, steps[..i]), steps[i])
  }

  lemma {:induction false} DroppedIff(table: string, steps: seq<Step>)
    ensures Run(table, EMPTY, steps).dropped == multiset{} <==> NoneForeign(table, steps)
  {
    hide Apply, Foreign;
    if steps != [] {
      var n := |steps| - 1;
      DroppedIff(table, steps[..n]);
      StepDropped(table, Run(table, EMPTY, steps[..n]), steps[n]);
      ForeignLast(table, steps);
    }
  }

  lemma ForeignLast(table: string, steps: seq<Step>)
    requires steps != []
    ensures var n := |steps| - 1;
            NoneForeign(table, steps)
            <==> NoneForeign(table, steps[..n]) && !Foreign(table, Run(table, EMPTY, steps[..n]), steps[n])
  {
    hide Run, Foreign;
    var front := steps[..|steps| - 1];
    assert forall i :: 0 <= i < |front| ==> front[i] == steps[i] && front[..i] == steps[..i];
    if NoneForeign(table, front) && !Foreign(table, Run(table, EMPTY, front), steps[|front|]) {
      assert steps[..|front|] == front;
    }
  }

  lemma StepDropped(table: string, s: State, step: Step)
    ensures Apply(table, s, step).dropped == multiset{} <==> s.dropped == multiset{} && !Foreign(table, s, step)
  {
    if Foreign(table, s, step) {
      var foreign := Returned(table, step.response.unprocessed, false);
      assert foreign[0] in multiset(foreign);
    }
  }

  /** Every item put is stored or waiting exactly when no answer ever names another table. */
  lemma ConservedIff(table: string, steps: seq<Step>)
    requires Answers(table, EMPTY, steps)
    ensures var s := Run(table, EMPTY, steps);
            s.put == s.written + multiset(s.buffer)
            <==> NoneForeign(table, steps)
  {
    hide Run, NoneForeign;
    RunConserves(table, steps);
    DroppedIff(table, steps);
    var s := Run(table, EMPTY, steps);
    Absorbs(s.written + multiset(s.buffer), s.dropped);
  }

  lemma Absorbs(a: multiset<Item>, b: multiset<Item>)
    ensures a == a + b <==> b == multiset{}
  {
    if b != multiset{} {
      var x :| x in b;
      assert (a + b)[x] > a[x];
    }
  }

  const REQUESTED := "table"

  function ForeignAnswer(item: Item): Step { Flush(Answered(multiset{}, [Unprocessed("other", [item])])) }

  lemma ForeignSteps(item: Item)
    ensures var added := State([item], multiset{item}, multiset{}, multiset{});
            && Enabled(EMPTY, Add(item)) && Apply(REQUESTED, EMPTY, Add(item)) == added
            && Enabled(added, ForeignAnswer(item))
            && Apply(REQUESTED, added, ForeignAnswer(item)) == State([], multiset{item}, multiset{}, multiset{item})
  {
    var us := [Unprocessed("other", [item])];
    assert us[..0] == [] && AllItems(us) == [item] && Returned(REQUESTED, us, true) == [];
    assert Returned(REQUESTED, us, false) == [item];
  }

  /** One item, returned under a table nobody asked for, is neither stored nor waiting. */
  lemma ForeignItemIsLost(item: Item)
    ensures var steps := [Add(item), ForeignAnswer(item)];
            && Answers(REQUESTED, EMPTY, steps)
            && Run(REQUESTED, EMPTY, steps) == State([], multiset{item}, multiset{}, multiset{item})
  {
    hide Apply, Enabled, ForeignAnswer;
    var steps := [Add(item), ForeignAnswer(item)];
    ForeignSteps(item);
    assert steps[..0] == [] && steps[..1] == [Add(item)] && steps[..1][..0] == [];
    assert Run(REQUESTED, EMPTY, steps[..1]) == Apply(REQUESTED, EMPTY, Add(item));
  }
}
