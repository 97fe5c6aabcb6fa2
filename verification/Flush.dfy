/**
 Sending one request and retrying what the service refused. Answers are foreign:
 they are given as an arbitrary list, and nothing about them is taken for granted.
 */
module Flush {
  import opened Bytes

  /** `codes[i]` says whether result i carries an error code. */
  datatype Answer = Unreachable | Answered(failedCount: int, codes: seq<bool>)

  /** `Waiting` is a loop still going when the modelled answers are used up. */
  datatype Outcome = Delivered | SendError | Panicked | Waiting

  /** The records whose result has (or has not) an error code, in order. */
  function Pick<T>(records: seq<T>, codes: seq<bool>, want: bool): seq<T> {
    if records == [] || codes == [] then []
    else (if codes[0] == want then [records[0]] else []) + Pick(records[1..], codes[1..], want)
  }

  /** Records the answer does not mention. */
  function Unreported<T>(records: seq<T>, codes: seq<bool>): seq<T> {
    if |codes| <= |records| then records[|codes|..] else []
  }

  /** An error code beyond the request's records makes the lookup panic. */
  predicate LooksUpBeyond(n: nat, codes: seq<bool>) {
    exists i :: n <= i < |codes| && codes[i]
  }

  /** What one call to the service settles, over all its attempts. `held` is the request on return. */
  datatype Run<T> = Run(outcome: Outcome, acked: seq<T>, pending: seq<T>, unreported: seq<T>, held: seq<T>)

  function Send<T>(records: seq<T>, answers: seq<Answer>): Run<T>
    decreases |answers|
  {
    if answers == [] then Run(Waiting, [], records, [], records)
    else
      match answers[0]
      case Unreachable => Run(SendError, [], records, [], records)
      case Answered(failedCount, codes) =>
        var acked := Pick(records, codes, false);
        var failed := Pick(records, codes, true);
        if failedCount == 0 then Run(Delivered, acked, failed, Unreported(records, codes), records)
        else if LooksUpBeyond(|records|, codes) then Run(Panicked, acked, failed, Unreported(records, codes), records)
        else
          var rest := Send(failed, answers[1..]);
          rest.(acked := acked + rest.acked, unreported := Unreported(records, codes) + rest.unreported)
  }

  function From<T>(records: seq<T>, i: nat): seq<T> { if i <= |records| then records[i..] else [] }

  lemma PickNext<T>(records: seq<T>, codes: seq<bool>, i: nat)
    requires i < |codes| && (codes[i] ==> i < |records|)
    ensures Pick(From(records, i), codes[i..], true)
            == (if codes[i] then [records[i]] else []) + Pick(From(records, i + 1), codes[i + 1..], true)
  {
    var rs, cs := From(records, i), codes[i..];
    assert cs[1..] == codes[i + 1..];
    if i < |records| {
      assert rs[1..] == From(records, i + 1);
    }
  }

  lemma PickNone<T>(records: seq<T>)
    ensures Pick(records, [], true) == []
  {}

  method Failures<T>(records: seq<T>, codes: seq<bool>) returns (out: seq<T>)
    requires !LooksUpBeyond(|records|, codes)
    ensures out == Pick(records, codes, true)
  {
    hide Pick;
    out := [];
    assert records[0..] == records && codes[0..] == codes;
    for i := 0 to |codes|
      invariant Pick(records, codes, true) == out + Pick(From(records, i), codes[i..], true)
    {
      PickNext(records, codes, i);
      ghost var rest := Pick(From(records, i + 1), codes[i + 1..], true);
      if codes[i] {
        Rebracket(out, [records[i]], rest);
        out := out + [records[i]];
      } else {
        assert [] + rest == rest;
      }
    }
    PickNone(From(records, |codes|));
    assert codes[|codes|..] == [] && out + [] == out;
  }

  /** What is left to send, after `done` was acknowledged, completes the whole run. */
  ghost predicate Completes<T>(done: seq<T>, rest: Run<T>, whole: Run<T>) {
    rest.outcome == whole.outcome && rest.held == whole.held && done + rest.acked == whole.acked
  }

  lemma CompletesRetry<T>(done: seq<T>, request: seq<T>, answers: seq<Answer>, whole: Run<T>)
    requires answers != [] && answers[0].Answered? && answers[0].failedCount != 0
    requires !LooksUpBeyond(|request|, answers[0].codes)
    requires Completes(done, Send(request, answers), whole)
    ensures var codes := answers[0].codes;
            Completes(done + Pick(request, codes, false), Send(Pick(request, codes, true), answers[1..]), whole)
  {
    hide Pick;
    var codes := answers[0].codes;
    var rest := Send(Pick(request, codes, true), answers[1..]);
    assert (done + Pick(request, codes, false)) + rest.acked == done + (Pick(request, codes, false) + rest.acked);
  }

  method SendRequest<T>(records: seq<T>, answers: seq<Answer>)
    returns (outcome: Outcome, request: seq<T>, ghost acked: seq<T>)
    ensures outcome == Send(records, answers).outcome
    ensures request == Send(records, answers).held
    ensures acked == Send(records, answers).acked
  {
    request := records;
    acked := [];
    var n := 0;
    ghost var whole := Send(records, answers);
    assert answers[0..] == answers;
    assert Completes([], Send(records, answers), whole);
    while true
      invariant n <= |answers|
      invariant Completes(acked, Send(request, answers[n..]), whole)
      decreases |answers| - n
    {
      if n == |answers| {
        return Waiting, request, acked;
      }
      var answer := answers[n];
      if answer.Unreachable? {
        return SendError, request, acked;
      }
      if answer.failedCount == 0 {
        return Delivered, request, acked + Pick(request, answer.codes, false);
      }
      if LooksUpBeyond(|request|, answer.codes) {
        return Panicked, request, acked + Pick(request, answer.codes, false);
      }
      CompletesRetry(acked, request, answers[n..], whole);
      assert answers[n..][1..] == answers[n + 1..];
      acked := acked + Pick(request, answer.codes, false);
      request := Failures(request, answer.codes);
      n := n + 1;
    }
  }

  // Conservation

  lemma PickCons<T>(records: seq<T>, codes: seq<bool>)
    requires records != [] && codes != []
    ensures multiset(records) == multiset{records[0]} + multiset(records[1..])
    ensures multiset(Pick(records, codes, codes[0]))
            == multiset{records[0]} + multiset(Pick(records[1..], codes[1..], codes[0]))
    ensures Pick(records, codes, !codes[0]) == Pick(records[1..], codes[1..], !codes[0])
  {
    var tail := Pick(records[1..], codes[1..], codes[0]);
    assert Pick(records, codes, codes[0]) == [records[0]] + tail;
    assert records == [records[0]] + records[1..];
  }

  lemma {:induction false} PickSplits<T>(records: seq<T>, codes: seq<bool>)
    ensures multiset(records)
            == multiset(Pick(records, codes, false)) + multiset(Pick(records, codes, true))
               + multiset(Unreported(records, codes))
  {
    if records != [] && codes != [] {
      hide Pick, Unreported;
      var rs, cs := records[1..], codes[1..];
      PickSplits(rs, cs);
      PickCons(records, codes);
      SameUnreported(records, codes);
      OneMore(records[0], multiset(Pick(rs, cs, false)), multiset(Pick(rs, cs, true)), multiset(Unreported(rs, cs)));
    } else if codes == [] {
      assert Unreported(records, codes) == records;
    }
  }

  lemma SameUnreported<T>(records: seq<T>, codes: seq<bool>)
    requires records != [] && codes != []
    ensures Unreported(records, codes) == Unreported(records[1..], codes[1..])
  {}

  lemma OneMore<T>(x: T, a: multiset<T>, b: multiset<T>, c: multiset<T>)
    ensures multiset{x} + (a + b + c) == (multiset{x} + a) + b + c == a + (multiset{x} + b) + c
  {}

  /**
   Whatever the service answers, in every attempt: each record is acknowledged,
   still pending, or was left out of an answer, and nothing is in two of them.
   */
  lemma {:induction false} SendConserves<T>(records: seq<T>, answers: seq<Answer>)
    ensures var r := Send(records, answers);
            multiset(records) == multiset(r.acked) + multiset(r.pending) + multiset(r.unreported)
    decreases |answers|
  {
    if answers != [] && answers[0].Answered? {
      var codes := answers[0].codes;
      PickSplits(records, codes);
      if answers[0].failedCount != 0 && !LooksUpBeyond(|records|, codes) {
        SendConserves(Pick(records, codes, true), answers[1..]);
      }
    }
  }

  function ErrorCount(codes: seq<bool>): nat {
    if codes == [] then 0 else (if codes[0] then 1 else 0) + ErrorCount(codes[1..])
  }

  /** The service's contract: one result per record, and an honest failure count. */
  predicate Complies(n: nat, a: Answer) {
    a.Answered? ==> |a.codes| == n && a.failedCount == ErrorCount(a.codes)
  }

  predicate CompliantRun<T>(records: seq<T>, answers: seq<Answer>)
    decreases |answers|
  {
    answers == [] ||
    (Complies(|records|, answers[0]) &&
     (answers[0].Answered? && answers[0].failedCount != 0 ==>
        CompliantRun(Pick(records, answers[0].codes, true), answers[1..])))
  }

  lemma {:induction false} PickLength<T>(records: seq<T>, codes: seq<bool>)
    requires |codes| == |records|
    ensures |Pick(records, codes, true)| == ErrorCount(codes)
  {
    if records != [] {
      PickLength(records[1..], codes[1..]);
    }
  }

  predicate Subsequence<T(==)>(a: seq<T>, b: seq<T>) {
    a == [] || (b != [] && (Subsequence(a, b[1..]) || (a[0] == b[0] && Subsequence(a[1..], b[1..]))))
  }

  lemma {:induction false} SubsequenceSelf<T>(a: seq<T>)
    ensures Subsequence(a, a)
  {
    if a != [] {
      SubsequenceSelf(a[1..]);
    }
  }

  lemma {:induction false} SubsequenceTrans<T>(a: seq<T>, b: seq<T>, c: seq<T>)
    requires Subsequence(a, b) && Subsequence(b, c)
    ensures Subsequence(a, c)
    decreases |b| + |c|
  {
    if a != [] && b != [] {
      if Subsequence(b, c[1..]) {
        SubsequenceTrans(a, b, c[1..]);
      } else if Subsequence(a, b[1..]) {
        SubsequenceTrans(a, b[1..], c[1..]);
      } else {
        SubsequenceTrans(a[1..], b[1..], c[1..]);
      }
    }
  }

  lemma {:induction false} PickIsSubsequence<T>(records: seq<T>, codes: seq<bool>, want: bool)
    ensures Subsequence(Pick(records, codes, want), records)
  {
    if records != [] && codes != [] {
      PickIsSubsequence(records[1..], codes[1..], want);
      var tail := Pick(records[1..], codes[1..], want);
      assert Pick(records, codes, want) == if codes[0] == want then [records[0]] + tail else tail;
    }
  }

  /** What is still pending, and what the request holds, keep the original order. */
  lemma {:induction false} PendingInOrder<T>(records: seq<T>, answers: seq<Answer>)
    ensures Subsequence(Send(records, answers).pending, records)
    ensures Subsequence(Send(records, answers).held, records)
    decreases |answers|
  {
    SubsequenceSelf(records);
    if answers != [] && answers[0].Answered? {
      var failed := Pick(records, answers[0].codes, true);
      PickIsSubsequence(records, answers[0].codes, true);
      if answers[0].failedCount != 0 && !LooksUpBeyond(|records|, answers[0].codes) {
        PendingInOrder(failed, answers[1..]);
        SubsequenceTrans(Send(failed, answers[1..]).pending, failed, records);
        SubsequenceTrans(Send(failed, answers[1..]).held, failed, records);
      }
    }
  }

  /**
   Under the service's contract nothing goes unreported, nothing panics, and a nil
   return acknowledges every record exactly once.
   */
  lemma {:induction false} CompliantSend<T>(records: seq<T>, answers: seq<Answer>)
    requires CompliantRun(records, answers)
    ensures var r := Send(records, answers);
            && r.unreported == [] && !r.outcome.Panicked?
            && multiset(records) == multiset(r.acked) + multiset(r.pending)
            && (r.outcome.Delivered? ==> r.pending == [] && multiset(r.acked) == multiset(records))
    decreases |answers|
  {
    SendConserves(records, answers);
    if answers != [] && answers[0].Answered? {
      PickLength(records, answers[0].codes);
      if answers[0].failedCount != 0 {
        CompliantSend(Pick(records, answers[0].codes, true), answers[1..]);
      }
    }
  }

  lemma {:induction false} PickAllOrNone<T>(records: seq<T>, codes: seq<bool>)
    ensures Pick(records, codes, true) == [] <==>
            forall i :: 0 <= i < |records| && i < |codes| ==> !codes[i]
  {
    if records != [] && codes != [] {
      PickAllOrNone(records[1..], codes[1..]);
      assert forall i :: 0 < i < |codes| ==> codes[i] == codes[1..][i - 1];
    }
  }

  // Whether a nil return can be believed

  /**
   Every attempt has a result for each record it sent, and there is an attempt
   that counts no failure, the first of them without an error code for any record.
   */
  predicate Truthful<T>(records: seq<T>, answers: seq<Answer>)
    decreases |answers|
  {
    && answers != [] && answers[0].Answered? && |answers[0].codes| >= |records|
    && var codes := answers[0].codes;
       if answers[0].failedCount == 0 then forall i :: 0 <= i < |records| ==> !codes[i]
       else !LooksUpBeyond(|records|, codes) && Truthful(Pick(records, codes, true), answers[1..])
  }

  lemma LastAnswerTruthful<T>(records: seq<T>, codes: seq<bool>)
    ensures multiset(Pick(records, codes, false)) == multiset(records)
            <==> |codes| >= |records| && forall i :: 0 <= i < |records| ==> !codes[i]
  {
    PickSplits(records, codes);
    PickAllOrNone(records, codes);
    Whole(multiset(Pick(records, codes, false)), multiset(Pick(records, codes, true)),
          multiset(Unreported(records, codes)), multiset(records));
  }

  /** One part of three is the whole exactly when the other two are empty. */
  lemma Whole<T>(a: multiset<T>, b: multiset<T>, c: multiset<T>, all: multiset<T>)
    requires all == a + b + c
    ensures a == all <==> |b| == 0 && |c| == 0
  {
    assert |all| == |a| + |b| + |c|;
  }

  lemma SamePart<T>(a: multiset<T>, b: multiset<T>, c: multiset<T>)
    ensures a + b == a + c <==> b == c
  {
    if a + b == a + c {
      forall x ensures b[x] == c[x] {
        assert (a + b)[x] == (a + c)[x];
      }
    }
  }

  lemma RetryTruthful<T>(records: seq<T>, codes: seq<bool>, more: seq<T>, rest: multiset<T>)
    requires multiset(Pick(records, codes, true)) == multiset(more) + rest
    ensures multiset(Pick(records, codes, false) + more) == multiset(records)
            <==> |codes| >= |records| && multiset(more) == multiset(Pick(records, codes, true))
  {
    hide Pick, Unreported;
    var acked, failed, left := multiset(Pick(records, codes, false)), multiset(Pick(records, codes, true)),
                               multiset(Unreported(records, codes));
    PickSplits(records, codes);
    LeftOut(records, codes);
    assert acked + failed + left == acked + (failed + left);
    SamePart(acked, multiset(more), failed + left);
    if multiset(more) == failed + left {
      assert |failed| == |failed| + |left| + |rest|;
    }
  }

  lemma LeftOut<T>(records: seq<T>, codes: seq<bool>)
    ensures |multiset(Unreported(records, codes))| == 0 <==> |codes| >= |records|
  {}

  /**
   The code trusts the failure counts alone. Over any number of retries, the loop
   returns nil with every record acknowledged exactly once if and only if the
   answers are truthful.
   */
  lemma {:induction false} NilReturnTruthful<T>(records: seq<T>, answers: seq<Answer>)
    ensures var r := Send(records, answers);
            r.outcome.Delivered? && multiset(r.acked) == multiset(records) <==> Truthful(records, answers)
    decreases |answers|
  {
    hide Pick, Unreported;
    if answers != [] && answers[0].Answered? {
      var codes := answers[0].codes;
      if answers[0].failedCount == 0 {
        LastAnswerTruthful(records, codes);
      } else if !LooksUpBeyond(|records|, codes) {
        var failed := Pick(records, codes, true);
        var rest := Send(failed, answers[1..]);
        NilReturnTruthful(failed, answers[1..]);
        SendConserves(failed, answers[1..]);
        assert multiset(failed) == multiset(rest.acked) + (multiset(rest.pending) + multiset(rest.unreported));
        RetryTruthful(records, codes, rest.acked, multiset(rest.pending) + multiset(rest.unreported));
      }
    }
  }

  lemma PickOne<T>(x: T, code: bool, want: bool)
    ensures Pick([x], [code], want) == if code == want then [x] else []
  {
    assert [x][1..] == [];
  }

  lemma PickTwo<T>(x: T, y: T, c: bool, d: bool, want: bool)
    ensures Pick([x, y], [c, d], want) == (if c == want then [x] else []) + if d == want then [y] else []
  {
    PickOne(y, d, want);
    assert [x, y][1..] == [y] && [c, d][1..] == [d];
  }

  /** A retry does not help: the second answer counts no failure but refuses the record again. */
  lemma NilReturnAfterRetryLies<T>(x: T, y: T)
    ensures var r := Send([x, y], [Answered(1, [true, false]), Answered(0, [true])]);
            r.outcome.Delivered? && r.acked == [y] && r.pending == [x] && r.unreported == []
  {
    hide Pick;
    PickTwo(x, y, true, false, true);
    PickTwo(x, y, true, false, false);
    PickOne(x, true, true);
    PickOne(x, true, false);
    assert [x] + [] == [x];
    assert Send([x], [Answered(0, [true])]) == Run(Delivered, [], [x], [], [x]);
  }

  // What the request still holds on return

  predicate Retries(answers: seq<Answer>) {
    answers != [] && answers[0].Answered? && answers[0].failedCount != 0
  }

  /** Every attempt that is retried carries an error code for each of its records. */
  predicate NothingSettledBeforeRetry<T>(records: seq<T>, answers: seq<Answer>)
    decreases |answers|
  {
    Retries(answers) && !LooksUpBeyond(|records|, answers[0].codes) ==>
      && AllFail(|records|, answers[0].codes)
      && NothingSettledBeforeRetry(Pick(records, answers[0].codes, true), answers[1..])
  }

  predicate AllFail(n: nat, codes: seq<bool>) { n <= |codes| && forall i :: 0 <= i < n ==> codes[i] }

  lemma {:induction false} PickWhole<T>(records: seq<T>, codes: seq<bool>)
    ensures |Pick(records, codes, true)| <= |records|
    ensures |Pick(records, codes, true)| == |records| <==> AllFail(|records|, codes)
    ensures AllFail(|records|, codes) ==> Pick(records, codes, true) == records
  {
    if records != [] && codes != [] {
      PickWhole(records[1..], codes[1..]);
      assert forall i :: 0 < i < |codes| ==> codes[i] == codes[1..][i - 1];
      assert AllFail(|records|, codes) <==> codes[0] && AllFail(|records| - 1, codes[1..]);
    }
  }

  /** The request keeps all its records exactly when no attempt settled one and was retried. */
  lemma {:induction false} HeldWholeIff<T>(records: seq<T>, answers: seq<Answer>)
    ensures |Send(records, answers).held| <= |records|
    ensures |Send(records, answers).held| == |records| <==> NothingSettledBeforeRetry(records, answers)
    ensures NothingSettledBeforeRetry(records, answers) ==> Send(records, answers).held == records
    decreases |answers|
  {
    hide Pick, AllFail;
    if Retries(answers) && !LooksUpBeyond(|records|, answers[0].codes) {
      PickWhole(records, answers[0].codes);
      HeldWholeIff(Pick(records, answers[0].codes, true), answers[1..]);
    }
  }

  /** One record acknowledged, one retried: both are delivered, but the request returns without the first. */
  lemma AcknowledgedRecordIsDropped<T>(x: T, y: T)
    ensures var answers := [Answered(1, [false, true]), Answered(0, [false])];
            var r := Send([x, y], answers);
            r.outcome.Delivered? && r.acked == [x, y] && r.held == [y] && !NothingSettledBeforeRetry([x, y], answers)
  {
    hide Pick;
    PickTwo(x, y, false, true, true);
    PickTwo(x, y, false, true, false);
    PickOne(y, false, true);
    PickOne(y, false, false);
    assert [x] + [] == [x] && [] + [y] == [y] && [x] + [y] == [x, y];
    assert ![false, true][0];
    assert Send([y], [Answered(0, [false])]) == Run(Delivered, [y], [], [], [y]);
  }
}
