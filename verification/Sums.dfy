/** Multiset sums over sequences, and ownership of pooled identities. */
module Sums {
  import opened Bytes
  import opened Flush

  ghost function Sum<A, T>(xs: seq<A>, f: A -> multiset<T>): multiset<T> {
    if xs == [] then multiset{} else f(xs[0]) + Sum(xs[1..], f)
  }

  lemma {:induction false} SumAppend<A, T>(a: seq<A>, b: seq<A>, f: A -> multiset<T>)
    ensures Sum(a + b, f) == Sum(a, f) + Sum(b, f)
  {
    if a == [] {
      assert a + b == b;
    } else {
      assert (a + b)[1..] == a[1..] + b;
      SumAppend(a[1..], b, f);
    }
  }

  lemma SumOne<A, T>(x: A, f: A -> multiset<T>)
    ensures Sum([x], f) == f(x)
  {
    assert Sum([x], f) == f(x) + Sum([], f);
  }

  lemma SumSnoc<A, T>(a: seq<A>, x: A, f: A -> multiset<T>)
    ensures Sum(a + [x], f) == Sum(a, f) + f(x)
  {
    SumAppend(a, [x], f);
    SumOne(x, f);
  }

  lemma SumHead<A, T>(a: seq<A>, f: A -> multiset<T>)
    requires a != []
    ensures Sum(a, f) == f(a[0]) + Sum(a[1..], f)
  {}

  /** Replacing one element moves the sum by the difference. */
  lemma {:induction false} SumUpdate<A, T>(xs: seq<A>, i: nat, x: A, f: A -> multiset<T>)
    requires i < |xs|
    ensures Sum(xs[i := x], f) + f(xs[i]) == Sum(xs, f) + f(x)
  {
    if i == 0 {
      var ys := xs[0 := x];
      assert ys[1..] == xs[1..] && ys[0] == x;
    } else {
      var ys := xs[i := x];
      assert ys[0] == xs[0] && ys[1..] == xs[1..][i - 1 := x] && xs[1..][i - 1] == xs[i];
      SumUpdate(xs[1..], i - 1, x, f);
      SumHead(xs, f);
      SumHead(ys, f);
      Regroup(f(xs[0]), Sum(ys[1..], f), f(xs[i]));
      Regroup(f(xs[0]), Sum(xs[1..], f), f(x));
    }
  }

  lemma CancelRight<T>(a: multiset<T>, b: multiset<T>, x: multiset<T>)
    requires a + x == b + x
    ensures a == b
  {
    forall y ensures a[y] == b[y] {
      assert (a + x)[y] == (b + x)[y];
    }
  }

  lemma EmptyPlus<T>(a: multiset<T>)
    ensures multiset{} + a == a && a + multiset{} == a
  {}

  lemma SumSame<A, T>(xs: seq<A>, i: nat, x: A, f: A -> multiset<T>)
    requires i < |xs| && f(xs[i]) == f(x)
    ensures Sum(xs[i := x], f) == Sum(xs, f)
  {
    SumUpdate(xs, i, x, f);
    CancelRight(Sum(xs[i := x], f), Sum(xs, f), f(x));
  }

  lemma SumGains<A, T>(xs: seq<A>, i: nat, x: A, f: A -> multiset<T>)
    requires i < |xs| && f(xs[i]) == multiset{}
    ensures Sum(xs[i := x], f) == Sum(xs, f) + f(x)
  {
    SumUpdate(xs, i, x, f);
    EmptyPlus(Sum(xs[i := x], f));
  }

  lemma SumLoses<A, T>(xs: seq<A>, i: nat, x: A, f: A -> multiset<T>)
    requires i < |xs| && f(x) == multiset{}
    ensures Sum(xs, f) == Sum(xs[i := x], f) + f(xs[i])
  {
    SumUpdate(xs, i, x, f);
    EmptyPlus(Sum(xs, f));
  }

  lemma {:induction false} SumPick<A, T>(xs: seq<A>, codes: seq<bool>, f: A -> multiset<T>)
    ensures Sum(xs, f) == Sum(Pick(xs, codes, false), f) + Sum(Pick(xs, codes, true), f)
                          + Sum(Unreported(xs, codes), f)
  {
    if xs != [] && codes != [] {
      var rest, cs := xs[1..], codes[1..];
      SumPick(rest, cs, f);
      assert Unreported(xs, codes) == Unreported(rest, cs);
      SumOne(xs[0], f);
      SumAppend([xs[0]], Pick(rest, cs, codes[0]), f);
      assert Pick(xs, codes, codes[0]) == [xs[0]] + Pick(rest, cs, codes[0]);
      assert Pick(xs, codes, !codes[0]) == Pick(rest, cs, !codes[0]);
    } else if codes == [] {
      assert Unreported(xs, codes) == xs;
    }
  }

  /**
   The identities handed out so far are those below `next`. Each is free, held or
   lost to the garbage collector: exactly one of these, and held at most once.
   */
  ghost predicate Owns(free: set<nat>, lost: set<nat>, next: nat, held: multiset<nat>) {
    && (forall x <- free :: x < next && x !in held && x !in lost)
    && (forall x | x in held :: x < next && held[x] == 1 && x !in lost)
    && (forall x <- lost :: x < next)
    && (forall x: nat :: x < next ==> x in free || x in held || x in lost)
  }

  predicate Available(free: set<nat>, next: nat, x: nat) { x in free || x == next }

  function NextAfter(free: set<nat>, next: nat, x: nat): nat { if x in free then next else next + 1 }

  lemma OwnsTake(free: set<nat>, lost: set<nat>, next: nat, held: multiset<nat>, x: nat)
    requires Owns(free, lost, next, held) && Available(free, next, x)
    ensures Owns(free - {x}, lost, NextAfter(free, next, x), held + multiset{x})
  {}

  lemma Parted(kept: multiset<nat>, back: multiset<nat>, x: nat)
    ensures (kept + back)[x] == kept[x] + back[x]
    ensures x in kept + back <==> x in kept || x in back
  {}

  lemma OwnsGive(free: set<nat>, lost: set<nat>, next: nat, kept: multiset<nat>, back: multiset<nat>, ids: set<nat>)
    requires Owns(free, lost, next, kept + back)
    requires forall x :: x in ids <==> x in back
    ensures Owns(free + ids, lost, next, kept)
  {
    forall x: nat { Parted(kept, back, x); }
  }

  lemma OwnsDrop(free: set<nat>, lost: set<nat>, next: nat, kept: multiset<nat>, dropped: multiset<nat>, ids: set<nat>)
    requires Owns(free, lost, next, kept + dropped)
    requires forall x :: x in ids <==> x in dropped
    ensures Owns(free, lost + ids, next, kept)
  {
    forall x: nat { Parted(kept, dropped, x); }
  }

  lemma OwnsCollect(free: set<nat>, lost: set<nat>, next: nat, held: multiset<nat>, ids: set<nat>)
    requires Owns(free, lost, next, held)
    ensures Owns(free - ids, lost + free * ids, next, held)
  {}
}
