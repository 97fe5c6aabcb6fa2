/**
 The rank as the aggregator computes it, in double precision, against the exact
 one. Rounding is to a nearest double, with ties going either way.
 */
module FloatRank {
  import opened Aggregator

  const TWO_53 := 0x20_0000_0000_0000

  function Pow2(k: nat): (p: int)
    ensures p >= 1
  {
    if k == 0 then 1 else 2 * Pow2(k - 1)
  }

  /** A 53-bit integer times or divided by a power of two; the exponent's own range plays no part here. */
  predicate Scaled(x: real, m: int, k: nat) {
    -TWO_53 < m < TWO_53 && (x == (m * Pow2(k)) as real || x * Pow2(k) as real == m as real)
  }

  ghost predicate IsDouble(x: real) { exists m: int, k: nat :: Scaled(x, m, k) }

  function Distance(x: real, y: real): real { if x <= y then y - x else x - y }

  ghost predicate Rounds(x: real, y: real) {
    IsDouble(y) && forall z: real :: IsDouble(z) ==> Distance(x, y) <= Distance(x, z)
  }

  function Ceiling(x: real): int { -((-x).Floor) }

  // Doubles near an integer

  lemma IntegerIsDouble(n: nat)
    requires n <= TWO_53
    ensures IsDouble(n as real)
  {
    if n < TWO_53 {
      assert Scaled(n as real, n, 0);
    } else {
      assert Pow2(1) == 2;
      assert Scaled(n as real, TWO_53 / 2, 1);
    }
  }

  lemma Apart(a: int, m: int)
    requires a != m && m < TWO_53 && a > 0
    ensures (if a < m then m - a else a - m) * TWO_53 >= a
  {}

  lemma FractionApart(d: real, m: int, p: int, q: int)
    requires p >= 1 && q > 0 && d * p as real == m as real && m < TWO_53 && d != q as real
    ensures Distance(q as real, d) * TWO_53 as real >= q as real
  {
    hide Distance;
    var a := q * p;
    Same(d, q as real, p as real);
    assert a as real == q as real * p as real;
    assert a != m;
    Apart(a, m);
    var gap := if a < m then m - a else a - m;
    Spread(d, q as real, p as real, m as real, a as real);
    AsReals(gap, a);
    Divide(Distance(q as real, d), q as real, p as real, gap as real, a as real);
  }

  lemma AsReals(gap: int, a: int)
    requires gap * TWO_53 >= a
    ensures gap as real * TWO_53 as real >= a as real
  {
    assert (gap * TWO_53) as real == gap as real * TWO_53 as real;
  }

  lemma Same(d: real, q: real, p: real)
    requires p > 0.0 && d != q
    ensures d * p != q * p
  {}

  lemma Spread(d: real, q: real, p: real, m: real, a: real)
    requires p > 0.0 && d * p == m && q * p == a
    ensures Distance(q, d) * p == if a < m then m - a else a - m
  {}

  lemma Divide(x: real, q: real, p: real, gap: real, a: real)
    requires p > 0.0 && x * p == gap && gap * TWO_53 as real >= a == q * p
    ensures x * TWO_53 as real >= q
  {
    var t := TWO_53 as real;
    assert (x * t - q) * p == (x * p) * t - q * p;
    if x * t < q {
      NegativeProduct(x * t - q, p);
    }
  }

  lemma NegativeProduct(x: real, p: real)
    requires x < 0.0 < p
    ensures x * p < 0.0
  {}

  lemma WholeApart(q: int, n: int)
    requires 0 < q <= TWO_53 && n != q
    ensures Distance(q as real, n as real) * TWO_53 as real >= q as real
  {
    assert Distance(q as real, n as real) >= 1.0;
  }

  /** No double but the integer itself is within its 2^53rd part. */
  lemma IntegerApart(q: int, d: real)
    requires 0 < q <= TWO_53 && IsDouble(d) && d != q as real
    ensures Distance(q as real, d) * TWO_53 as real >= q as real
  {
    hide Pow2, Distance;
    var m, k :| Scaled(d, m, k);
    if d == (m * Pow2(k)) as real {
      WholeApart(q, m * Pow2(k));
    } else {
      FractionApart(d, m, Pow2(k), q);
    }
  }

  /** So a number that close to an integer is rounded to it. */
  lemma RoundsToInteger(x: real, y: real, q: nat)
    requires q <= TWO_53 && Rounds(x, y)
    requires x == q as real || Distance(x, q as real) * (2 * TWO_53) as real < q as real
    ensures y == q as real
  {
    IntegerIsDouble(q);
    if y != q as real && x != q as real {
      IntegerApart(q, y);
    }
  }

  /** A number clearly between two integers is not rounded down to the lower one. */
  lemma RoundsBetween(x: real, y: real, q: nat)
    requires q < 0x4000_0000_0000 && Rounds(x, y)
    requires q as real + 0.008 <= x <= q as real + 0.992
    ensures Ceiling(y) == q + 1
  {
    var m := (x * 128.0).Floor;
    var z := m as real / 128.0;
    assert Pow2(7) == 128;
    assert Scaled(z, m, 7);
    assert IsDouble(z);
    IntegerIsDouble(q + 1);
    assert Distance(x, z) < 0.0079;
    assert y > q as real;
    assert y <= (q + 1) as real;
  }

  // The percentiles the aggregator asks for

  predicate Asked(percentile: nat) { percentile in {50, 90, 95, 99} }

  /** The 53-bit numerator nearest to the quotient. */
  function Numerator(percentile: nat): nat
    requires Asked(percentile)
  {
    if percentile == 50 then 4503599627370496
    else if percentile == 90 then 8106479329266893
    else if percentile == 95 then 8556839292003942
    else 8917127262193582
  }

  lemma Pow2Of53()
    ensures Pow2(53) == TWO_53
  {
    assert Pow2(10) == 1024;
    assert Pow2(20) == 0x10_0000;
    assert Pow2(30) == 0x4000_0000;
    assert Pow2(40) == 0x100_0000_0000;
    assert Pow2(50) == 0x4_0000_0000_0000;
  }

  function Slack(percentile: nat): real { if percentile == 50 then 0.0 else 0.4 }

  lemma QuotientError(percentile: nat, c: real)
    requires Asked(percentile) && Rounds(percentile as real / 100.0, c)
    ensures Distance(percentile as real / 100.0, c) * TWO_53 as real <= Slack(percentile)
  {
    var z := Numerator(percentile) as real / TWO_53 as real;
    Pow2Of53();
    assert Scaled(z, Numerator(percentile), 53);
    assert IsDouble(z);
    assert Distance(percentile as real / 100.0, z) * TWO_53 as real <= Slack(percentile);
  }

  lemma ProductError(a: real, c: real, n: real, e: real, an: real, cn: real)
    requires n >= 0.0 && Distance(a, c) * TWO_53 as real <= e && an == a * n && cn == c * n
    ensures Distance(an, cn) * TWO_53 as real <= e * n
  {
    assert Distance(an, cn) == Distance(a, c) * n;
    assert Distance(a, c) * n * TWO_53 as real == (Distance(a, c) * TWO_53 as real) * n;
  }

  /**
   For these percentiles and any realistic total, the rank in double precision
   is the exact one: the quotient, the product and the ceiling lose nothing.
   */
  lemma FloatRankExact(percentile: nat, total: nat, quotient: real, product: real)
    requires Asked(percentile) && total <= 0x2000_0000_0000
    requires Rounds(percentile as real / 100.0, quotient) && Rounds(quotient * total as real, product)
    ensures Ceiling(product) == Rank(percentile, total)
  {
    hide Rounds, IsDouble, Distance, Ceiling, Slack, Rank;
    var a, x := percentile as real / 100.0, quotient * total as real;
    var q, r := percentile * total / 100, percentile * total % 100;
    QuotientError(percentile, quotient);
    assert Rounds(x, product);
    ExactParts(percentile, total, q, r);
    var exact := q as real + r as real / 100.0;
    ProductError(a, quotient, total as real, Slack(percentile), exact, x);
    if r == 0 {
      assert exact == q as real;
      WholeRank(percentile, total, q, x, product);
    } else {
      BrokenRank(percentile, total, q, r, x, product);
    }
  }

  lemma WholeRank(percentile: nat, total: nat, q: nat, x: real, y: real)
    requires Asked(percentile) && total <= 0x2000_0000_0000 && percentile * total == 100 * q && Rounds(x, y)
    requires Distance(q as real, x) * TWO_53 as real <= Slack(percentile) * total as real
    ensures Ceiling(y) == q
  {
    hide Rounds;
    assert percentile as real * total as real == 100.0 * q as real;
    assert total > 0 ==> 2.0 * Slack(percentile) * total as real < q as real;
    assert total == 0 || percentile == 50 ==> x == q as real;
    RoundsToInteger(x, y, q);
  }

  lemma BrokenRank(percentile: nat, total: nat, q: nat, r: nat, x: real, y: real)
    requires Asked(percentile) && total <= 0x2000_0000_0000
    requires percentile * total == 100 * q + r && 0 < r < 100 && Rounds(x, y)
    requires Distance(q as real + r as real / 100.0, x) * TWO_53 as real <= Slack(percentile) * total as real
    ensures Ceiling(y) == q + 1
  {
    hide Rounds, Ceiling;
    SmallError(x, q as real + r as real / 100.0, Slack(percentile), total);
    RoundsBetween(x, y, q);
  }

  lemma ExactParts(percentile: nat, total: nat, q: nat, r: nat)
    requires q == percentile * total / 100 && r == percentile * total % 100
    ensures percentile as real / 100.0 * total as real == q as real + r as real / 100.0
    ensures percentile * total == 100 * q + r
    ensures Rank(percentile, total) == if r == 0 then q else q + 1
  {
    assert percentile * total == 100 * q + r;
    assert percentile as real * total as real == (percentile * total) as real;
  }

  lemma SmallError(x: real, exact: real, e: real, total: nat)
    requires 0.0 <= e <= 0.4 && total <= 0x2000_0000_0000
    requires Distance(exact, x) * TWO_53 as real <= e * total as real
    ensures Distance(exact, x) <= 0.002
  {
    assert e * total as real <= 0.4 * total as real;
  }
}
