/** Latency histograms: adding, merging across reports, and percentiles read off the merged counts. */
module Histogram {

  // Buckets

  /** Edges, lowest first; bucket i runs from edge i up to the next edge, the last one without end. */
  predicate Ascending(buckets: seq<int>) { forall i, j :: 0 <= i < j < |buckets| ==> buckets[i] < buckets[j] }

  predicate Holds(buckets: seq<int>, i: nat, latency: int)
    requires i < |buckets|
  {
    buckets[i] <= latency && (i + 1 < |buckets| ==> latency < buckets[i + 1])
  }

  /** The first bucket from `i` on, before the last, that holds the latency; the last one if there is none. */
  function BucketFrom(buckets: seq<int>, latency: int, i: nat): (k: nat)
    requires i < |buckets|
    ensures i <= k < |buckets|
    decreases |buckets| - i
  {
    if i == |buckets| - 1 || Holds(buckets, i, latency) then i else BucketFrom(buckets, latency, i + 1)
  }

  function BucketOf(buckets: seq<int>, latency: int): (k: nat)
    requires buckets != []
    ensures k < |buckets|
  {
    BucketFrom(buckets, latency, 0)
  }

  lemma {:induction false} BucketFromFound(buckets: seq<int>, latency: int, i: nat)
    requires Ascending(buckets) && i < |buckets| && buckets[i] <= latency
    ensures Holds(buckets, BucketFrom(buckets, latency, i), latency)
    decreases |buckets| - i
  {
    if i < |buckets| - 1 && !Holds(buckets, i, latency) {
      BucketFromFound(buckets, latency, i + 1);
    }
  }

  lemma {:induction false} BucketFromLast(buckets: seq<int>, latency: int, i: nat)
    requires Ascending(buckets) && i < |buckets| && latency < buckets[i]
    ensures BucketFrom(buckets, latency, i) == |buckets| - 1
    decreases |buckets| - i
  {
    if i < |buckets| - 1 {
      BucketFromLast(buckets, latency, i + 1);
    }
  }

  /** A latency lands in the bucket that holds it exactly when it is not below the first edge; else in the last. */
  lemma BucketIff(buckets: seq<int>, latency: int)
    requires Ascending(buckets) && buckets != []
    ensures Holds(buckets, BucketOf(buckets, latency), latency) <==> buckets[0] <= latency
    ensures latency < buckets[0] ==> BucketOf(buckets, latency) == |buckets| - 1
  {
    if buckets[0] <= latency {
      BucketFromFound(buckets, latency, 0);
    } else {
      BucketFromLast(buckets, latency, 0);
    }
  }

  // Counts

  function Zeros(n: nat): seq<nat> { seq(n, _ => 0) }

  function Bump(c: seq<nat>, k: nat): (d: seq<nat>)
    requires k < |c|
    ensures |d| == |c| && forall i :: 0 <= i < |c| ==> d[i] == if i == k then c[i] + 1 else c[i]
  {
    c[k := c[k] + 1]
  }

  /** How many of the latencies fall into each bucket. */
  function Tally(buckets: seq<int>, latencies: seq<int>): (c: seq<nat>)
    requires buckets != []
    ensures |c| == |buckets|
  {
    if latencies == [] then Zeros(|buckets|)
    else
      Bump(Tally(buckets, latencies[..|latencies| - 1]), BucketOf(buckets, latencies[|latencies| - 1]))
  }

  function Sum(c: seq<nat>): nat { if c == [] then 0 else Sum(c[..|c| - 1]) + c[|c| - 1] }

  function Plus(a: seq<nat>, b: seq<nat>): (c: seq<nat>)
    requires |a| == |b|
    ensures |c| == |a| && forall i :: 0 <= i < |c| ==> c[i] == a[i] + b[i]
  {
    seq(|a|, i requires 0 <= i < |a| => a[i] + b[i])
  }

  lemma TallySnoc(buckets: seq<int>, front: seq<int>, latency: int)
    requires buckets != []
    ensures Tally(buckets, front + [latency]) == Bump(Tally(buckets, front), BucketOf(buckets, latency))
  {
    assert (front + [latency])[..|front|] == front;
  }

  lemma {:induction false} SumUpdate(c: seq<nat>, k: nat, n: nat)
    requires k < |c| && n <= |c|
    ensures Sum(Bump(c, k)[..n]) == Sum(c[..n]) + if k < n then 1 else 0
    decreases n
  {
    hide Bump;
    if n > 0 {
      SumUpdate(c, k, n - 1);
      assert Bump(c, k)[..n][..n - 1] == Bump(c, k)[..n - 1] && c[..n][..n - 1] == c[..n - 1];
    }
  }

  lemma {:induction false} SumZeros(n: nat)
    ensures Sum(Zeros(n)) == 0
  {
    if n > 0 {
      SumZeros(n - 1);
      assert Zeros(n)[..n - 1] == Zeros(n - 1);
    }
  }

  lemma {:induction false} TallySum(buckets: seq<int>, latencies: seq<int>)
    requires buckets != []
    ensures Sum(Tally(buckets, latencies)) == |latencies|
    decreases |latencies|
  {
    hide Bump, Sum, BucketOf, Tally;
    if latencies == [] {
      TallyNothing(buckets);
      SumZeros(|buckets|);
    } else {
      var front, last := latencies[..|latencies| - 1], latencies[|latencies| - 1];
      assert latencies == front + [last];
      TallySum(buckets, front);
      TallySnoc(buckets, front, last);
      var c, k := Tally(buckets, front), BucketOf(buckets, last);
      SumUpdate(c, k, |c|);
      assert c[..|c|] == c && Bump(c, k)[..|c|] == Bump(c, k);
    }
  }

  lemma TallyNothing(buckets: seq<int>)
    requires buckets != []
    ensures Tally(buckets, []) == Zeros(|buckets|)
  {}

  lemma {:induction false} TallyAppend(buckets: seq<int>, a: seq<int>, b: seq<int>)
    requires buckets != []
    ensures Tally(buckets, a + b) == Plus(Tally(buckets, a), Tally(buckets, b))
    decreases |b|
  {
    hide Bump, Tally, BucketOf;
    if b == [] {
      assert a + b == a;
      TallyNothing(buckets);
    } else {
      var front, last := b[..|b| - 1], b[|b| - 1];
      assert b == front + [last] && a + b == (a + front) + [last];
      TallyAppend(buckets, a, front);
      TallySnoc(buckets, a + front, last);
      TallySnoc(buckets, front, last);
    }
  }

  /** Adding part of the other histogram's counts: the first m. */
  function PlusTo(a: seq<nat>, b: seq<nat>, m: nat): (c: seq<nat>)
    requires |a| == |b| && m <= |a|
    ensures |c| == |a| && forall i :: 0 <= i < |c| ==> c[i] == if i < m then a[i] + b[i] else a[i]
  {
    seq(|a|, i requires 0 <= i < |a| => if i < m then a[i] + b[i] else a[i])
  }

  /** How many leading edges agree. */
  function Agreeing(a: seq<int>, b: seq<int>): (m: nat)
    ensures m <= |a| && m <= |b| && a[..m] == b[..m] && (m < |a| && m < |b| ==> a[m] != b[m])
  {
    if a == [] || b == [] || a[0] != b[0] then 0 else 1 + Agreeing(a[1..], b[1..])
  }

  class Histogram {
    const buckets: seq<int>
    var counts: array<nat>
    var total: nat

    /** The counts as the methods see them: all zero until the array has the right length. */
    ghost function Counts(): (c: seq<nat>)
      reads this, counts
      ensures |c| == |buckets|
    {
      if counts.Length == |buckets| then counts[..] else Zeros(|buckets|)
    }

    ghost predicate Represents(latencies: seq<int>)
      requires buckets != []
      reads this, counts
    {
      Counts() == Tally(buckets, latencies) && total == |latencies|
    }

    constructor (buckets: seq<int>)
      ensures this.buckets == buckets && Counts() == Zeros(|buckets|) && total == 0 && fresh(counts)
      ensures buckets != [] ==> Represents([])
    {
      this.buckets := buckets;
      counts := new nat[0];
      total := 0;
    }

    method Prepare()
      modifies this
      ensures counts.Length == |buckets| && counts[..] == old(Counts()) && total == old(total)
      ensures if old(counts).Length == |buckets| then counts == old(counts) else fresh(counts)
    {
      if counts.Length != |buckets| {
        counts := new nat[|buckets|](_ => 0);
      }
    }

    method Add(latency: int, ghost latencies: seq<int>)
      requires buckets != []
      modifies this, counts
      ensures Counts() == Bump(old(Counts()), BucketOf(buckets, latency))
      ensures total == old(total) + 1
      ensures old(Represents(latencies)) ==> Represents(latencies + [latency])
    {
      hide Tally;
      Prepare();
      var i := 0;
      while i < |buckets| - 1
        invariant 0 <= i < |buckets| && BucketFrom(buckets, latency, i) == BucketOf(buckets, latency)
      {
        if latency >= buckets[i] && latency < buckets[i + 1] {
          break;
        }
        i := i + 1;
      }
      total := total + 1;
      counts[i] := counts[i] + 1;
      TallySnoc(buckets, latencies, latency);
    }

    /** Adds the other's counts edge by edge, up to the first edge that differs. */
    method AddWhileEqual(other: Histogram) returns (ok: bool)
      requires counts.Length == |buckets| == |other.buckets| == other.counts.Length
      modifies counts
      ensures counts[..] == PlusTo(old(counts[..]), old(other.counts[..]), Agreeing(buckets, other.buckets))
      ensures ok <==> buckets == other.buckets
    {
      ghost var mine, others := counts[..], other.counts[..];
      ghost var m := Agreeing(buckets, other.buckets);
      for i := 0 to |buckets|
        invariant i <= m
        invariant forall k :: 0 <= k < |buckets| ==> counts[k] == if k < i then mine[k] + others[k] else mine[k]
        invariant forall k :: i <= k < |buckets| ==> other.counts[k] == others[k]
      {
        if buckets[i] != other.buckets[i] {
          return false;
        }
        counts[i] := counts[i] + other.counts[i];
      }
      ok := true;
    }

    /**
     Adds the other's counts if the edges agree. If only an edge differs, the
     counts before it have been added already. The total is replaced, not added.
     */
    method Merge(other: Histogram, ghost a: seq<int>, ghost b: seq<int>) returns (ok: bool)
      modifies this, counts, other
      ensures ok <==> buckets == other.buckets
      ensures |buckets| == |other.buckets| ==>
                Counts() == PlusTo(old(Counts()), old(other.Counts()), Agreeing(buckets, other.buckets))
      ensures |buckets| != |other.buckets| ==> Counts() == old(Counts())
      ensures total == if ok then old(other.total) else old(total)
      ensures ok && buckets != [] && old(Represents(a)) && old(other.Represents(b)) ==>
                Counts() == Tally(buckets, a + b) && (Represents(a + b) <==> a == [])
    {
      hide Tally, Agreeing;
      Prepare();
      other.Prepare();
      if |buckets| != |other.buckets| {
        return false;
      }
      ok := AddWhileEqual(other);
      if ok {
        total := other.total;
        if buckets != [] {
          TallyAppend(buckets, a, b);
        }
      }
    }
  }
}
