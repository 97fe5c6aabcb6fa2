/** Reports of several load generators put together, and percentiles of the whole. */
module Aggregator {
  import opened Bytes
  import opened Histogram

  datatype Report = Report(buckets: seq<int>, counts: seq<nat>)

  /** As a load generator writes it: a count for each edge. */
  predicate Shaped(r: Report) { |r.counts| == |r.buckets| }

  method EnsureHistogramCompatibility(inputs: seq<Report>) returns (ok: bool)
    requires inputs != []
    ensures ok <==> forall r <- inputs :: r.buckets == inputs[0].buckets
  {
    var first := inputs[0].buckets;
    for j := 1 to |inputs|
      invariant forall k :: 0 <= k < j ==> inputs[k].buckets == first
    {
      var input := inputs[j];
      assert input in inputs;
      if |first| != |input.buckets| {
        return false;
      }
      for i := 0 to |first|
        invariant forall k :: 0 <= k < i ==> first[k] == input.buckets[k]
      {
        if first[i] != input.buckets[i] {
          return false;
        }
      }
    }
    ok := true;
  }

  /** The counts of all reports, edge by edge. */
  function Merged(inputs: seq<Report>, n: nat): (c: seq<nat>)
    requires forall r <- inputs :: |r.counts| == n
    ensures |c| == n
  {
    if inputs == [] then Zeros(n) else Plus(Merged(inputs[..|inputs| - 1], n), inputs[|inputs| - 1].counts)
  }

  lemma {:induction false} SumPlus(a: seq<nat>, b: seq<nat>, n: nat)
    requires |a| == |b| && n <= |a|
    ensures Sum(Plus(a, b)[..n]) == Sum(a[..n]) + Sum(b[..n])
  {
    if n > 0 {
      SumPlus(a, b, n - 1);
      assert Plus(a, b)[..n][..n - 1] == Plus(a, b)[..n - 1];
      assert a[..n][..n - 1] == a[..n - 1] && b[..n][..n - 1] == b[..n - 1];
    }
  }

  /** The total is counted anew; the reports' own totals are not used. */
  method AggregateHistograms(inputs: seq<Report>) returns (hist: Report, total: nat)
    requires inputs != []
    requires forall r <- inputs :: r.buckets == inputs[0].buckets && |r.counts| == |inputs[0].buckets|
    ensures hist == Report(inputs[0].buckets, Merged(inputs, |inputs[0].buckets|))
    ensures total == Sum(hist.counts)
  {
    var n := |inputs[0].buckets|;
    var counts := new nat[n](_ => 0);
    total := 0;
    SumZeros(n);
    assert counts[..] == Zeros(n);
    assert inputs[..0] == [];
    for j := 0 to |inputs|
      invariant counts[..] == Merged(inputs[..j], n) && total == Sum(counts[..])
    {
      var input := inputs[j];
      assert input in inputs && inputs[..j + 1][..j] == inputs[..j];
      total := AddCounts(counts, input.counts, total);
    }
    assert inputs[..|inputs|] == inputs;
    hist := Report(inputs[0].buckets, counts[..]);
  }

  method AddCounts(counts: array<nat>, more: seq<nat>, before: nat) returns (total: nat)
    requires |more| == counts.Length && before == Sum(counts[..])
    modifies counts
    ensures counts[..] == Plus(old(counts[..]), more) && total == Sum(counts[..])
  {
    hide Sum;
    ghost var was := counts[..];
    total := before;
    SumTo(more, 0);
    for i := 0 to |more|
      invariant forall k :: 0 <= k < |more| ==> counts[k] == if k < i then was[k] + more[k] else was[k]
      invariant total == before + Sum(more[..i])
    {
      SumTo(more, i);
      counts[i] := counts[i] + more[i];
      total := total + more[i];
    }
    assert counts[..] == Plus(was, more);
    SumPlus(was, more, |more|);
    assert was[..|more|] == was && more[..|more|] == more && Plus(was, more)[..|more|] == Plus(was, more);
  }

  lemma SumTo(c: seq<nat>, i: nat)
    requires i <= |c|
    ensures i == 0 ==> Sum(c[..i]) == 0
    ensures i < |c| ==> Sum(c[..i + 1]) == Sum(c[..i]) + c[i]
  {
    assert i < |c| ==> c[..i + 1][..i] == c[..i];
  }

  /** The smallest rank whose share of the total reaches the percentile. */
  function Rank(percentile: nat, total: nat): (rank: nat)
    ensures 100 * rank >= percentile * total
    ensures rank > 0 ==> 100 * (rank - 1) < percentile * total
  {
    (percentile * total + 99) / 100
  }

  /** Bucket i is the first by which this many counts are reached; i is past the end if they never are. */
  ghost predicate FirstReached(counts: seq<nat>, rank: nat, i: nat) {
    && i <= |counts|
    && (i < |counts| ==> rank <= Sum(counts[..i + 1]))
    && (0 < i ==> Sum(counts[..i]) < rank)
  }

  /** The edge of the first bucket by which `rank` counts are reached, or zero if they never are. */
  method HistogramPercentile(hist: Report, total: nat, percentile: nat) returns (edge: int, i: nat)
    requires Shaped(hist)
    ensures FirstReached(hist.counts, Rank(percentile, total), i)
    ensures edge == if i < |hist.buckets| then hist.buckets[i] else 0
  {
    hide Sum;
    var totalToCurrentIndex := 0;
    var countAtPercentile := Rank(percentile, total);
    i := 0;
    SumTo(hist.counts, 0);
    while i < |hist.buckets|
      invariant i <= |hist.buckets| && totalToCurrentIndex == Sum(hist.counts[..i])
      invariant 0 < i ==> Sum(hist.counts[..i]) < countAtPercentile
    {
      SumTo(hist.counts, i);
      totalToCurrentIndex := totalToCurrentIndex + hist.counts[i];
      if totalToCurrentIndex >= countAtPercentile {
        return hist.buckets[i], i;
      }
      i := i + 1;
    }
    edge := 0;
  }

  // What the percentile means

  predicate Sorted(s: seq<int>) { forall i, j :: 0 <= i < j < |s| ==> s[i] <= s[j] }

  function CountBelow(s: seq<int>, x: int): (n: nat)
    ensures n <= |s|
  {
    if s == [] then 0 else CountBelow(s[..|s| - 1], x) + if s[|s| - 1] < x then 1 else 0
  }

  /** In ascending order, the elements below x come first. */
  lemma {:induction false} SortedBelow(s: seq<int>, x: int, k: nat)
    requires Sorted(s) && k < |s|
    ensures s[k] < x <==> CountBelow(s, x) > k
  {
    var front := s[..|s| - 1];
    if k < |front| {
      SortedBelow(front, x, k);
    } else if s[k] < x {
      AllBelow(front, x);
    }
  }

  lemma {:induction false} AllBelow(s: seq<int>, x: int)
    requires forall i :: 0 <= i < |s| ==> s[i] < x
    ensures CountBelow(s, x) == |s|
  {
    if s != [] {
      AllBelow(s[..|s| - 1], x);
    }
  }

  lemma {:induction false} CountBelowRemove(s: seq<int>, i: nat, x: int)
    requires i < |s|
    ensures CountBelow(s, x) == CountBelow(s[..i] + s[i + 1..], x) + if s[i] < x then 1 else 0
  {
    var n := |s| - 1;
    if i < n {
      CountBelowRemove(s[..n], i, x);
      var rest := s[..i] + s[i + 1..];
      assert s[..n][..i] == s[..i] && s[..n][i + 1..] == s[i + 1..n];
      assert rest[..n - 1] == s[..i] + s[i + 1..n] && rest[n - 1] == s[n];
    } else {
      assert s[..i] + s[i + 1..] == s[..n];
    }
  }

  /** The order does not matter to the count. */
  lemma {:induction false} CountBelowPermuted(s: seq<int>, t: seq<int>, x: int)
    requires multiset(s) == multiset(t)
    ensures CountBelow(s, x) == CountBelow(t, x)
    decreases |s|
  {
    if s != [] {
      var i := RemoveLast(s, t);
      CountBelowPermuted(s[..|s| - 1], t[..i] + t[i + 1..], x);
      CountBelowRemove(t, i, x);
    }
  }

  predicate AtOrAbove(latencies: seq<int>, edge: int) {
    forall i :: 0 <= i < |latencies| ==> edge <= latencies[i]
  }

  /** The counts before an edge are the latencies below it. */
  lemma {:induction false} PrefixBelow(buckets: seq<int>, latencies: seq<int>, i: nat)
    requires Ascending(buckets) && i < |buckets| && AtOrAbove(latencies, buckets[0])
    ensures Sum(Tally(buckets, latencies)[..i]) == CountBelow(latencies, buckets[i])
    decreases |latencies|
  {
    hide Bump, Sum, BucketOf, Tally;
    if latencies == [] {
      TallyNothing(buckets);
      SumZeros(i);
      assert Zeros(|buckets|)[..i] == Zeros(i);
    } else {
      var front, last := latencies[..|latencies| - 1], latencies[|latencies| - 1];
      assert latencies == front + [last];
      PrefixBelow(buckets, front, i);
      TallySnoc(buckets, front, last);
      var k := BucketOf(buckets, last);
      SumUpdate(Tally(buckets, front), k, i);
      BucketIff(buckets, last);
    }
  }

  /** The reports count the latencies of these runs. */
  ghost predicate Counted(inputs: seq<Report>, runs: seq<seq<int>>, buckets: seq<int>) {
    && buckets != [] && |inputs| == |runs|
    && forall j :: 0 <= j < |inputs| ==> inputs[j] == Report(buckets, Tally(buckets, runs[j]))
  }

  /** Merging counts the runs' latencies all together. */
  lemma {:induction false} MergedTally(inputs: seq<Report>, runs: seq<seq<int>>, buckets: seq<int>)
    requires Counted(inputs, runs, buckets)
    ensures forall r <- inputs :: |r.counts| == |buckets|
    ensures Merged(inputs, |buckets|) == Tally(buckets, Flatten(runs))
  {
    hide Tally, Plus;
    if inputs == [] {
      TallyNothing(buckets);
    } else {
      var n := |inputs| - 1;
      MergedTally(inputs[..n], runs[..n], buckets);
      FlattenSnoc(runs[..n], runs[n]);
      assert runs == runs[..n] + [runs[n]];
      TallyAppend(buckets, Flatten(runs[..n]), runs[n]);
    }
  }

  /**
   The percentile of merged reports is the lower edge of the bucket that holds
   the latency of that rank, of all the runs together in ascending order.
   */
  lemma PercentileMeaning(inputs: seq<Report>, runs: seq<seq<int>>, buckets: seq<int>, percentile: nat, i: nat,
                          sorted: seq<int>)
    requires Counted(inputs, runs, buckets) && Ascending(buckets) && AtOrAbove(Flatten(runs), buckets[0])
    requires Sorted(sorted) && multiset(sorted) == multiset(Flatten(runs)) && sorted != []
    requires 1 <= percentile <= 100
    ensures var rank := Rank(percentile, |sorted|);
            FirstReached(Tally(buckets, Flatten(runs)), rank, i) ==>
              i < |buckets| && 1 <= rank <= |sorted| && Holds(buckets, i, sorted[rank - 1])
  {
    hide Tally, Sum, CountBelow;
    var all := Flatten(runs);
    var rank := Rank(percentile, |sorted|);
    var counts := Tally(buckets, all);
    if FirstReached(counts, rank, i) {
      assert |sorted| == |multiset(sorted)| == |multiset(all)| == |all|;
      TallySum(buckets, all);
      assert counts[..|buckets|] == counts;
      RankRange(percentile, |sorted|);
      PermutedBound(all, sorted, buckets[0]);
      if i > 0 {
        BelowEdge(buckets, all, sorted, i, rank - 1);
      }
      if i + 1 < |buckets| {
        BelowEdge(buckets, all, sorted, i + 1, rank - 1);
      }
    }
  }

  /** In ascending order, position k is below an edge exactly when the counts before the edge exceed k. */
  lemma BelowEdge(buckets: seq<int>, latencies: seq<int>, sorted: seq<int>, i: nat, k: nat)
    requires Ascending(buckets) && i < |buckets| && AtOrAbove(latencies, buckets[0])
    requires Sorted(sorted) && multiset(sorted) == multiset(latencies) && k < |sorted|
    ensures sorted[k] < buckets[i] <==> Sum(Tally(buckets, latencies)[..i]) > k
  {
    hide Tally, Sum, CountBelow;
    PrefixBelow(buckets, latencies, i);
    CountBelowPermuted(latencies, sorted, buckets[i]);
    SortedBelow(sorted, buckets[i], k);
  }

  lemma RankRange(percentile: nat, total: nat)
    requires 1 <= percentile <= 100 && total > 0
    ensures 1 <= Rank(percentile, total) <= total
  {
    assert percentile * total <= 100 * total;
    assert percentile * total >= 1;
  }

  lemma PermutedBound(s: seq<int>, t: seq<int>, edge: int)
    requires AtOrAbove(s, edge) && multiset(s) == multiset(t)
    ensures AtOrAbove(t, edge)
  {
    forall i | 0 <= i < |t|
      ensures edge <= t[i]
    {
      assert t[i] in multiset(s);
    }
  }
}
