/** Bytes, messages and the few generic helpers shared by every module. */
module Bytes {

  type byte = x: int | 0 <= x < 256

  const TWO_63 := 0x8000_0000_0000_0000
  const TWO_64 := 0x1_0000_0000_0000_0000

  type int64 = x: int | -TWO_63 <= x < TWO_63
  type uint64 = x: int | 0 <= x < TWO_64

  datatype Option<+T> = None | Some(value: T)

  predicate Distinct<T(==)>(s: seq<T>) { forall i, j :: 0 <= i < j < |s| ==> s[i] != s[j] }

  function Flatten<T>(parts: seq<seq<T>>): seq<T> {
    if parts == [] then [] else parts[0] + Flatten(parts[1..])
  }

  lemma FlattenCons<T>(x: seq<T>, rest: seq<seq<T>>)
    ensures Flatten([x] + rest) == x + Flatten(rest)
  {
    assert ([x] + rest)[1..] == rest;
  }

  lemma FlattenNone<T>()
    ensures Flatten<T>([]) == []
  {}

  lemma {:induction false} FlattenAppend<T>(a: seq<seq<T>>, b: seq<seq<T>>)
    ensures Flatten(a + b) == Flatten(a) + Flatten(b)
  {
    hide Flatten;
    if a == [] {
      FlattenNone<T>();
      assert a + b == b && [] + Flatten(b) == Flatten(b);
    } else {
      var x, rest := a[0], a[1..];
      FlattenAppend(rest, b);
      assert a == [x] + rest && a + b == [x] + (rest + b);
      FlattenCons(x, rest);
      FlattenCons(x, rest + b);
      Rebracket(x, Flatten(rest), Flatten(b));
    }
  }

  lemma FlattenSnoc<T>(a: seq<seq<T>>, x: seq<T>)
    ensures Flatten(a + [x]) == Flatten(a) + x
  {
    FlattenAppend(a, [x]);
    assert Flatten([x]) == x + Flatten([]);
  }

  /** The last element of a sequence, found in a permutation of it, and what is left of both. */
  lemma RemoveLast<T>(s: seq<T>, t: seq<T>) returns (i: nat)
    requires multiset(s) == multiset(t) && s != []
    ensures |s| == |t| && i < |t| && t[i] == s[|s| - 1]
    ensures multiset(s[..|s| - 1]) == multiset(t[..i] + t[i + 1..])
  {
    var front, last := s[..|s| - 1], s[|s| - 1];
    assert |s| == |multiset(s)| == |multiset(t)| == |t|;
    assert s == front + [last];
    assert last in multiset(t);
    i :| 0 <= i < |t| && t[i] == last;
    assert t == t[..i] + [last] + t[i + 1..];
    assert multiset(front) == multiset(s) - multiset{last};
    assert multiset(t[..i] + t[i + 1..]) == multiset(t) - multiset{last};
  }

  lemma Rebracket<T>(a: seq<T>, b: seq<T>, c: seq<T>)
    ensures (a + b) + c == a + (b + c)
  {}

  lemma Regroup<T>(a: multiset<T>, b: multiset<T>, c: multiset<T>)
    ensures (a + b) + c == a + (b + c)
  {}

  lemma Multiples(d: int, m: int)
    requires m > 0
    ensures d >= 1 ==> d * m >= m
    ensures d <= -1 ==> d * m <= -m
  {}

  /** A quotient and a remainder that fit are the ones. */
  lemma Unique(x: int, q: int, r: int, m: int)
    requires m > 0 && x == q * m + r && 0 <= r < m
    ensures x % m == r && x / m == q
  {
    var p, s := x / m, x % m;
    assert (q - p) * m == s - r;
    Multiples(q - p, m);
  }
}
