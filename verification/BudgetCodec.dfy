/**
 Campaign budgets on their way to the bidder: the generator packs them into
 numbered batches of bytes, the bidder's reader takes the bytes apart.
 */
module BudgetCodec {
  import opened Bytes

  const ID_LEN := 16
  const BUDGET_BYTE_SIZE := 24

  type Key = k: seq<byte> | |k| == ID_LEN witness seq(ID_LEN, _ => 0)

  datatype Budget = Budget(campaignID: Key, available: int64)
  datatype BudgetBatchDB = BudgetBatchDB(id: nat, batchSize: nat, batch: seq<byte>)

  // Integers as bytes

  /** Two's complement. */
  function ToUnsigned(x: int64): nat { if x < 0 then x + TWO_64 else x }

  function ToSigned(u: nat): int64
    requires u < TWO_64
  {
    if u < TWO_63 then u else u - TWO_64
  }

  function Pow256(n: nat): (p: nat)
    ensures p > 0
  {
    if n == 0 then 1 else 256 * Pow256(n - 1)
  }

  function LittleEndian(u: nat, n: nat): (bs: seq<byte>)
    ensures |bs| == n
  {
    if n == 0 then [] else [u % 256] + LittleEndian(u / 256, n - 1)
  }

  function FromLittleEndian(bs: seq<byte>): nat {
    if bs == [] then 0 else bs[0] + 256 * FromLittleEndian(bs[1..])
  }

  lemma {:induction false} LittleEndianRoundTrip(u: nat, n: nat)
    requires u < Pow256(n)
    ensures FromLittleEndian(LittleEndian(u, n)) == u
  {
    if n > 0 {
      LittleEndianRoundTrip(u / 256, n - 1);
    }
  }

  lemma {:induction false} FromLittleEndianBound(bs: seq<byte>)
    ensures FromLittleEndian(bs) < Pow256(|bs|)
  {
    if bs != [] {
      FromLittleEndianBound(bs[1..]);
    }
  }

  lemma {:induction false} FromLittleEndianRoundTrip(bs: seq<byte>)
    ensures LittleEndian(FromLittleEndian(bs), |bs|) == bs
  {
    if bs != [] {
      var head, rest := bs[0], FromLittleEndian(bs[1..]);
      FromLittleEndianRoundTrip(bs[1..]);
      LittleEndianStep(head, rest, |bs|);
      assert bs == [head] + bs[1..];
    }
  }

  lemma LittleEndianStep(head: byte, rest: nat, n: nat)
    requires n > 0
    ensures LittleEndian(head + 256 * rest, n) == [head] + LittleEndian(rest, n - 1)
  {
    var u := head + 256 * rest;
    assert u % 256 == head && u / 256 == rest;
  }

  lemma Pow256Of8()
    ensures Pow256(8) == TWO_64
  {
    assert Pow256(3) == 0x100_0000;
    assert Pow256(6) == 256 * (256 * (256 * Pow256(3)));
  }

  function EncodeBudget(b: Budget): (bs: seq<byte>)
    ensures |bs| == BUDGET_BYTE_SIZE
  {
    b.campaignID + LittleEndian(ToUnsigned(b.available), 8)
  }

  function DecodeBudget(bs: seq<byte>): Budget
    requires |bs| == BUDGET_BYTE_SIZE
  {
    FromLittleEndianBound(bs[ID_LEN..]);
    Pow256Of8();
    Budget(bs[..ID_LEN], ToSigned(FromLittleEndian(bs[ID_LEN..])))
  }

  /** Writer and reader are inverses, for every amount and every 24 bytes. */
  lemma BudgetRoundTrip(b: Budget, bs: seq<byte>)
    ensures DecodeBudget(EncodeBudget(b)) == b
    ensures |bs| == BUDGET_BYTE_SIZE ==> EncodeBudget(DecodeBudget(bs)) == bs
  {
    hide LittleEndian, FromLittleEndian, Pow256;
    Pow256Of8();
    LittleEndianRoundTrip(ToUnsigned(b.available), 8);
    assert EncodeBudget(b)[..ID_LEN] == b.campaignID;
    assert EncodeBudget(b)[ID_LEN..] == LittleEndian(ToUnsigned(b.available), 8);
    if |bs| == BUDGET_BYTE_SIZE {
      FromLittleEndianBound(bs[ID_LEN..]);
      FromLittleEndianRoundTrip(bs[ID_LEN..]);
      assert bs == bs[..ID_LEN] + bs[ID_LEN..];
    }
  }

  lemma {:induction false} LittleEndianAt(u: nat, n: nat, k: nat)
    requires k < n
    ensures LittleEndian(u, n)[k] == u / Pow256(k) % 256
  {
    if k > 0 {
      LittleEndianAt(u / 256, n - 1, k - 1);
      DivideTwice(u, 256, Pow256(k - 1));
    }
  }

  lemma DivideTwice(u: nat, a: nat, b: nat)
    requires a > 0 && b > 0
    ensures a * b > 0 && u / a / b == u / (a * b)
  {
    var v, r := u / a, u % a;
    var q, s := v / b, v % b;
    Multiples(b, a);
    Multiples(b - s, a);
    assert a * b > 0 && a * s + r < a * b && a * s >= 0;
    assert u == a * (b * q + s) + r;
    assert a * (b * q + s) + r == q * (a * b) + (a * s + r);
    Unique(u, q, a * s + r, a * b);
  }

  /** The identifier, then the amount in two's complement, its lowest byte first. */
  lemma BudgetLayout(b: Budget, k: nat)
    requires k < 24
    ensures ToUnsigned(b.available) < TWO_64 && (b.available >= 0 ==> ToUnsigned(b.available) == b.available)
    ensures b.available < 0 ==> ToUnsigned(b.available) == b.available + TWO_64
    ensures EncodeBudget(b)[k]
            == if k < 16 then b.campaignID[k] else ToUnsigned(b.available) / Pow256(k - 16) % 256
  {
    hide LittleEndian;
    if k >= 16 {
      LittleEndianAt(ToUnsigned(b.available), 8, k - 16);
    }
  }

  // Whole batches

  /** This many bytes hold no fraction of a budget. */
  predicate Whole(n: nat) { n % BUDGET_BYTE_SIZE == 0 }

  function EncodeBudgets(budgets: seq<Budget>): seq<byte> {
    if budgets == [] then []
    else EncodeBudgets(budgets[..|budgets| - 1]) + EncodeBudget(budgets[|budgets| - 1])
  }

  function DecodeBudgets(bs: seq<byte>): seq<Budget>
    requires Whole(|bs|)
  {
    if bs == [] then []
    else [DecodeBudget(bs[..BUDGET_BYTE_SIZE])] + DecodeBudgets(bs[BUDGET_BYTE_SIZE..])
  }

  lemma {:induction false} DecodeSnoc(bs: seq<byte>, last: seq<byte>)
    requires Whole(|bs|) && |last| == BUDGET_BYTE_SIZE
    ensures DecodeBudgets(bs + last) == DecodeBudgets(bs) + [DecodeBudget(last)]
  {
    hide DecodeBudget;
    if bs == [] {
      assert bs + last == last && last[..BUDGET_BYTE_SIZE] == last && last[BUDGET_BYTE_SIZE..] == [];
    } else {
      var n := BUDGET_BYTE_SIZE;
      DecodeSnoc(bs[n..], last);
      assert (bs + last)[..n] == bs[..n] && (bs + last)[n..] == bs[n..] + last;
    }
  }

  lemma {:induction false} BudgetsRoundTrip(budgets: seq<Budget>)
    ensures |EncodeBudgets(budgets)| == BUDGET_BYTE_SIZE * |budgets|
    ensures DecodeBudgets(EncodeBudgets(budgets)) == budgets
  {
    hide DecodeBudget, EncodeBudget;
    if budgets != [] {
      var n := |budgets| - 1;
      BudgetsRoundTrip(budgets[..n]);
      BudgetRoundTrip(budgets[n], []);
      DecodeSnoc(EncodeBudgets(budgets[..n]), EncodeBudget(budgets[n]));
    }
  }

  method BudgetBatchCompress(id: nat, batch: seq<Budget>) returns (compressed: BudgetBatchDB)
    ensures compressed == BudgetBatchDB(id, |batch|, EncodeBudgets(batch))
  {
    hide EncodeBudget;
    var bytes := [];
    for i := 0 to |batch|
      invariant bytes == EncodeBudgets(batch[..i])
    {
      assert batch[..i + 1][..i] == batch[..i];
      bytes := bytes + batch[i].campaignID;
      bytes := bytes + LittleEndian(ToUnsigned(batch[i].available), 8);
      assert bytes == EncodeBudgets(batch[..i]) + EncodeBudget(batch[i]) by {
        Split(EncodeBudgets(batch[..i]), batch[i]);
      }
    }
    assert batch[..|batch|] == batch;
    compressed := BudgetBatchDB(id, |batch|, bytes);
  }

  lemma Split(front: seq<byte>, b: Budget)
    ensures front + b.campaignID + LittleEndian(ToUnsigned(b.available), 8) == front + EncodeBudget(b)
  {}

  // The reader

  datatype Outcome = Read | BadResponseFormat | ConsumerFailed

  function Rejects(fails: Budget -> bool, b: Budget): bool { fails(b) }

  /**
   `attribute` is the item's budget attribute, if it has one of the right
   type; `fails` says which budgets the consumer returns an error for.
   */
  method UnmarshallBudgetAttributes(attribute: Option<seq<byte>>, fails: Budget -> bool)
    returns (consumed: seq<Budget>, outcome: Outcome)
    ensures outcome == BadResponseFormat <==> attribute.None? || !Whole(|attribute.value|)
    ensures outcome == BadResponseFormat ==> consumed == []
    ensures outcome != BadResponseFormat ==> consumed <= DecodeBudgets(attribute.value)
    ensures outcome == Read ==>
              consumed == DecodeBudgets(attribute.value) && forall b <- consumed :: !Rejects(fails, b)
    ensures outcome == ConsumerFailed ==>
              && consumed != [] && Rejects(fails, consumed[|consumed| - 1])
              && forall i :: 0 <= i < |consumed| - 1 ==> !Rejects(fails, consumed[i])
  {
    hide DecodeBudget, DecodeBudgets, Rejects, ReadTo, Whole;
    consumed := [];
    if attribute.None? || !Whole(|attribute.value|) {
      return consumed, BadResponseFormat;
    }
    var budgets := attribute.value;
    var offset := 0;
    ReadStarts(budgets);
    while offset < |budgets|
      invariant 0 <= offset <= |budgets| && ReadTo(budgets, offset, consumed)
      invariant forall b <- consumed :: !Rejects(fails, b)
    {
      ReadNext(budgets, offset, consumed);
      var item := DecodeBudget(budgets[offset..offset + BUDGET_BYTE_SIZE]);
      consumed := consumed + [item];
      ReadSoFar(budgets, offset + BUDGET_BYTE_SIZE, consumed);
      if Rejects(fails, item) {
        return consumed, ConsumerFailed;
      }
      offset := offset + BUDGET_BYTE_SIZE;
    }
    ReadEnds(budgets, offset, consumed);
    outcome := Read;
  }

  /** What was consumed, and what the rest of the bytes hold. */
  ghost predicate ReadTo(budgets: seq<byte>, offset: nat, consumed: seq<Budget>) {
    && offset <= |budgets| && Whole(|budgets|) && Whole(offset)
    && consumed + DecodeBudgets(budgets[offset..]) == DecodeBudgets(budgets)
  }

  lemma ReadStarts(budgets: seq<byte>)
    requires Whole(|budgets|)
    ensures ReadTo(budgets, 0, [])
  {
    assert budgets[0..] == budgets;
  }

  lemma ReadEnds(budgets: seq<byte>, offset: nat, consumed: seq<Budget>)
    requires ReadTo(budgets, offset, consumed) && offset == |budgets|
    ensures consumed == DecodeBudgets(budgets)
  {}

  lemma WholeBudgets(n: nat, offset: nat)
    requires offset < n && Whole(n) && Whole(offset)
    ensures offset + BUDGET_BYTE_SIZE <= n && Whole(offset + BUDGET_BYTE_SIZE)
    ensures Whole(n - offset) && Whole(n - (offset + BUDGET_BYTE_SIZE))
  {}

  lemma DecodeHead(budgets: seq<byte>, offset: nat)
    requires offset < |budgets| && Whole(|budgets|) && Whole(offset)
    ensures offset + BUDGET_BYTE_SIZE <= |budgets|
    ensures DecodeBudgets(budgets[offset..])
            == [DecodeBudget(budgets[offset..offset + BUDGET_BYTE_SIZE])]
               + DecodeBudgets(budgets[offset + BUDGET_BYTE_SIZE..])
  {
    hide DecodeBudget, Whole;
    WholeBudgets(|budgets|, offset);
    var rest := budgets[offset..];
    assert rest[..BUDGET_BYTE_SIZE] == budgets[offset..offset + BUDGET_BYTE_SIZE];
    assert rest[BUDGET_BYTE_SIZE..] == budgets[offset + BUDGET_BYTE_SIZE..];
  }

  lemma ReadNext(budgets: seq<byte>, offset: nat, consumed: seq<Budget>)
    requires ReadTo(budgets, offset, consumed) && offset < |budgets|
    ensures offset + BUDGET_BYTE_SIZE <= |budgets|
    ensures ReadTo(budgets, offset + BUDGET_BYTE_SIZE,
                   consumed + [DecodeBudget(budgets[offset..offset + BUDGET_BYTE_SIZE])])
  {
    hide DecodeBudget, DecodeBudgets, Whole;
    WholeBudgets(|budgets|, offset);
    DecodeHead(budgets, offset);
    var end := offset + BUDGET_BYTE_SIZE;
    Rebracket(consumed, [DecodeBudget(budgets[offset..end])], DecodeBudgets(budgets[end..]));
  }

  lemma ReadSoFar(budgets: seq<byte>, offset: nat, consumed: seq<Budget>)
    requires ReadTo(budgets, offset, consumed)
    ensures Whole(|budgets|) && consumed <= DecodeBudgets(budgets)
  {
    hide DecodeBudgets;
  }

  // The generator

  datatype Config = Config(keyLow: uint64, keyHigh: uint64, minBudget: int64, maxBudget: int64, batchSize: int)

  const DEFAULT_KEY_LOW: uint64 := 1
  const DEFAULT_KEY_HIGH: uint64 := 1_000_000
  const DEFAULT_MIN_BUDGET: int64 := 500_000_000
  const DEFAULT_MAX_BUDGET: int64 := 1_500_000_000
  const DEFAULT_BUDGET_BATCH_SIZE := 170

  /** Positive budgets in order, and a highest key the counter can pass, without which the loop does not end. */
  ghost predicate Resolved(cfg: Config) { 0 < cfg.minBudget <= cfg.maxBudget && cfg.keyHigh < TWO_64 - 1 }

  /** The budget settings, corrected in branch order: they come out fit exactly if the highest key was. */
  method Resolve(cfg: Config) returns (r: Config)
    ensures Resolved(r) <==> cfg.keyHigh < TWO_64 - 1
    ensures r.keyLow == (if cfg.keyLow == 0 then 1 else cfg.keyLow)
    ensures r.keyHigh == (if cfg.keyHigh == 0 then 1_000_000 else cfg.keyHigh)
    ensures r.minBudget == (if cfg.minBudget <= 0 then 500_000_000 else cfg.minBudget)
    ensures var top := if cfg.maxBudget <= 0 then 1_500_000_000 else cfg.maxBudget;
            r.maxBudget >= top && r.maxBudget >= r.minBudget && r.maxBudget in {top, r.minBudget}
    ensures r.batchSize == (if cfg.batchSize == 0 then 170 else cfg.batchSize)
    ensures cfg.keyLow > 0 && cfg.keyHigh > 0 && 0 < cfg.minBudget <= cfg.maxBudget && cfg.batchSize != 0 ==> r == cfg
  {
    r := cfg;
    if r.keyLow == 0 {
      r := r.(keyLow := DEFAULT_KEY_LOW);
    }
    if r.keyHigh == 0 {
      r := r.(keyHigh := DEFAULT_KEY_HIGH);
    }
    if r.minBudget <= 0 {
      r := r.(minBudget := DEFAULT_MIN_BUDGET);
    }
    if r.maxBudget <= 0 {
      r := r.(maxBudget := DEFAULT_MAX_BUDGET);
    }
    if r.maxBudget < r.minBudget {
      r := r.(maxBudget := r.minBudget);
    }
    if r.batchSize == 0 {
      r := r.(batchSize := DEFAULT_BUDGET_BATCH_SIZE);
    }
  }

  /** Signed 64-bit arithmetic wraps around. */
  function Wrapped(x: int): int64 { (x + TWO_63) % TWO_64 - TWO_63 }

  /** How many amounts there are; at the largest maximum both wraps cancel. */
  function AmountRange(cfg: Config): (n: int64)
    requires Resolved(cfg)
    ensures n == cfg.maxBudget - cfg.minBudget + 1 > 0
  {
    Wrapped(Wrapped(cfg.maxBudget + 1) - cfg.minBudget)
  }

  type Encryptor = nat -> Key

  function Encrypt(enc: Encryptor, i: nat): Key { enc(i) }

  /** `draws` are the random numbers, one for each key. */
  function Draw(draws: nat -> nat, i: nat): nat { draws(i) }

  function BudgetOf(cfg: Config, enc: Encryptor, draws: nat -> nat, i: nat): (b: Budget)
    requires Resolved(cfg)
    ensures cfg.minBudget <= b.available <= cfg.maxBudget
  {
    Budget(Encrypt(enc, i), Draw(draws, i) % AmountRange(cfg) + cfg.minBudget)
  }

  lemma SameRemainder(x: nat, n: nat)
    requires n > 0
    ensures (x % n - x) % n == 0
  {
    var q, r := x / n, x % n;
    assert r - x == (-q) * n + 0;
    Unique(r - x, -q, 0, n);
  }

  /** The amount is the draw, wrapped into the range; every amount of the range is some draw's. */
  lemma BudgetOfMeaning(cfg: Config, enc: Encryptor, draws: nat -> nat, i: nat, amount: int64)
    requires Resolved(cfg)
    ensures var b := BudgetOf(cfg, enc, draws, i);
            && b.campaignID == Encrypt(enc, i)
            && ((b.available - cfg.minBudget) - Draw(draws, i)) % (cfg.maxBudget - cfg.minBudget + 1) == 0
            && (cfg.minBudget <= amount <= cfg.maxBudget && Draw(draws, i) == amount - cfg.minBudget ==>
                  b.available == amount)
  {
    hide Draw, Encrypt, AmountRange;
    var draw, n := Draw(draws, i), cfg.maxBudget - cfg.minBudget + 1;
    assert AmountRange(cfg) == n;
    SameRemainder(draw, n);
    if draw < n {
      Unique(draw, 0, draw, n);
    }
  }

  /** One budget for each key from the lowest up to, and without, `end`. */
  function BudgetsTo(cfg: Config, enc: Encryptor, draws: nat -> nat, end: nat): (s: seq<Budget>)
    requires Resolved(cfg)
    ensures |s| == if end <= cfg.keyLow then 0 else end - cfg.keyLow
    ensures forall k :: 0 <= k < |s| ==> s[k] == BudgetOf(cfg, enc, draws, cfg.keyLow + k)
  {
    if end <= cfg.keyLow then []
    else BudgetsTo(cfg, enc, draws, end - 1) + [BudgetOf(cfg, enc, draws, end - 1)]
  }

  /** Cut into pieces of n, the last one whatever is left; in one piece if n is not positive. */
  function Chunks<T>(s: seq<T>, n: int): seq<seq<T>>
    decreases |s|
  {
    if s == [] then [] else if n <= 0 || |s| <= n then [s] else [s[..n]] + Chunks(s[n..], n)
  }

  function Numbered(groups: seq<seq<Budget>>, first: nat): (r: seq<BudgetBatchDB>)
    ensures |r| == |groups|
    ensures forall i :: 0 <= i < |r| ==> r[i] == BudgetBatchDB(first + i, |groups[i]|, EncodeBudgets(groups[i]))
  {
    if groups == [] then []
    else [BudgetBatchDB(first, |groups[0]|, EncodeBudgets(groups[0]))] + Numbered(groups[1..], first + 1)
  }

  /** Only the last piece may be short, none is empty, and together they are the whole. */
  lemma {:induction false} ChunksMeaning<T>(s: seq<T>, n: int)
    ensures var c := Chunks(s, n);
            && Flatten(c) == s
            && (forall i :: 0 <= i < |c| ==> c[i] != [])
            && (n > 0 ==> forall i :: 0 <= i < |c| ==> |c[i]| <= n && (i < |c| - 1 ==> |c[i]| == n))
            && (n <= 0 ==> |c| <= 1)
    decreases |s|
  {
    if s == [] {
    } else if n <= 0 || |s| <= n {
      assert Flatten([s]) == s + Flatten([]);
    } else {
      ChunksMeaning(s[n..], n);
      assert Chunks(s, n)[1..] == Chunks(s[n..], n);
    }
  }

  /** What a loop that closes a piece whenever it is full has built when it stops. */
  lemma {:induction false} ChunksBuilt<T>(full: seq<seq<T>>, rest: seq<T>, n: int)
    requires forall i :: 0 <= i < |full| ==> |full[i]| == n
    requires if n > 0 then |rest| < n else full == []
    ensures Chunks(Flatten(full) + rest, n) == full + if rest == [] then [] else [rest]
  {
    hide Flatten;
    if full == [] {
      assert Flatten(full) + rest == rest by { FlattenNone<T>(); }
    } else {
      ChunksBuilt(full[1..], rest, n);
      var s, others := Flatten(full) + rest, Flatten(full[1..]);
      FlattenCons(full[0], full[1..]);
      assert full == [full[0]] + full[1..];
      Rebracket(full[0], others, rest);
      assert s[..n] == full[0] && s[n..] == others + rest;
      if others + rest == [] {
        Unempty(full[1..], n);
        assert s == full[0] && rest == [];
      }
    }
  }

  lemma Unempty<T>(full: seq<seq<T>>, n: int)
    requires n > 0 && Flatten(full) == [] && forall i :: 0 <= i < |full| ==> |full[i]| == n
    ensures full == []
  {}

  lemma NumberedSnoc(groups: seq<seq<Budget>>, g: seq<Budget>, first: nat)
    ensures Numbered(groups + [g], first)
            == Numbered(groups, first) + [BudgetBatchDB(first + |groups|, |g|, EncodeBudgets(g))]
  {}

  /** Every key's budget, in numbered batches. */
  function Generated(cfg: Config, enc: Encryptor, draws: nat -> nat): seq<BudgetBatchDB>
    requires Resolved(cfg)
  {
    Numbered(Chunks(BudgetsTo(cfg, enc, draws, cfg.keyHigh + 1), cfg.batchSize), 1)
  }

  /** What the loop has written, and the batch it is filling, after the budgets `done`. */
  ghost predicate Building(done: seq<Budget>, groups: seq<seq<Budget>>, batch: seq<Budget>, size: int,
                           out: seq<BudgetBatchDB>, id: nat)
  {
    && out == Numbered(groups, 1) && id == |groups| + 1
    && Flatten(groups) + batch == done
    && (if size > 0 then |batch| < size else groups == [])
    && forall k :: 0 <= k < |groups| ==> |groups[k]| == size
  }

  /** One round: a batch that is full now is written, and a new one begins. */
  method AddBudget(budget: Budget, batch: seq<Budget>, size: int, out: seq<BudgetBatchDB>, id: nat,
                   ghost done: seq<Budget>, ghost groups: seq<seq<Budget>>)
    returns (batch': seq<Budget>, out': seq<BudgetBatchDB>, id': nat, ghost groups': seq<seq<Budget>>)
    requires Building(done, groups, batch, size, out, id)
    ensures Building(done + [budget], groups', batch', size, out', id')
    ensures var full := |batch| + 1 == size;
            && batch' == (if full then [] else batch + [budget])
            && id' == (if full then id + 1 else id)
            && out' == out + if full then [BudgetBatchDB(id, size, EncodeBudgets(batch + [budget]))] else []
  {
    hide EncodeBudgets, Numbered, Flatten;
    batch', out', id', groups' := batch + [budget], out, id, groups;
    Rebracket(Flatten(groups), batch, [budget]);
    if |batch'| == size {
      var record := BudgetBatchCompress(id, batch');
      NumberedSnoc(groups, batch', 1);
      FlattenSnoc(groups, batch');
      groups' := groups + [batch'];
      out', batch', id' := out + [record], [], id + 1;
      assert Flatten(groups') + [] == Flatten(groups');
    }
  }

  method BudgetGenerator(cfg: Config, enc: Encryptor, draws: nat -> nat) returns (out: seq<BudgetBatchDB>)
    requires Resolved(cfg)
    ensures out == Generated(cfg, enc, draws)
  {
    hide BudgetOf, EncodeBudgets, Numbered, Chunks, Flatten, Building;
    out := [];
    var id, batch := 1, [];
    ghost var groups: seq<seq<Budget>> := [];
    var i: nat := cfg.keyLow;
    BuildingNothing(cfg.batchSize);
    while i <= cfg.keyHigh
      invariant cfg.keyLow <= i && (i <= cfg.keyHigh + 1 || i == cfg.keyLow)
      invariant Building(BudgetsTo(cfg, enc, draws, i), groups, batch, cfg.batchSize, out, id)
    {
      batch, out, id, groups := AddBudget(BudgetOf(cfg, enc, draws, i), batch, cfg.batchSize, out, id,
                                          BudgetsTo(cfg, enc, draws, i), groups);
      i := i + 1;
    }
    ghost var all := BudgetsTo(cfg, enc, draws, cfg.keyHigh + 1);
    assert BudgetsTo(cfg, enc, draws, i) == all;
    if |batch| > 0 {
      var record := BudgetBatchCompress(id, batch);
      BuildingEnds(all, groups, batch, cfg.batchSize, out, id);
      out := out + [record];
    } else {
      BuildingEnds(all, groups, batch, cfg.batchSize, out, id);
    }
  }

  lemma BuildingNothing(size: int)
    ensures Building([], [], [], size, [], 1)
  {}

  lemma BuildingEnds(all: seq<Budget>, groups: seq<seq<Budget>>, batch: seq<Budget>, size: int,
                     out: seq<BudgetBatchDB>, id: nat)
    requires Building(all, groups, batch, size, out, id)
    ensures Numbered(Chunks(all, size), 1)
            == out + if batch == [] then [] else [BudgetBatchDB(id, |batch|, EncodeBudgets(batch))]
  {
    hide EncodeBudgets, Numbered, Chunks, Flatten;
    ChunksBuilt(groups, batch, size);
    NumberedSnoc(groups, batch, 1);
  }

  // From generator to reader

  function DecodeRecords(records: seq<BudgetBatchDB>): seq<Budget>
    requires forall r <- records :: Whole(|r.batch|)
  {
    if records == [] then []
    else DecodeBudgets(records[0].batch) + DecodeRecords(records[1..])
  }

  lemma {:induction false} NumberedDecode(groups: seq<seq<Budget>>, first: nat)
    ensures forall r <- Numbered(groups, first) :: Whole(|r.batch|)
    ensures DecodeRecords(Numbered(groups, first)) == Flatten(groups)
  {
    hide EncodeBudgets, DecodeBudgets;
    if groups != [] {
      BudgetsRoundTrip(groups[0]);
      NumberedDecode(groups[1..], first + 1);
      var r := Numbered(groups, first);
      assert r[1..] == Numbered(groups[1..], first + 1);
    }
  }

  ghost predicate Injective(enc: Encryptor) {
    forall i: nat, j: nat :: i < TWO_64 && j < TWO_64 && Encrypt(enc, i) == Encrypt(enc, j) ==> i == j
  }

  /**
   Reading the generator's records in order gives every key's budget once, in
   key order, each with the amount it was given; no campaign appears twice.
   */
  lemma BudgetPipelineRoundTrip(cfg: Config, enc: Encryptor, draws: nat -> nat)
    requires Resolved(cfg) && Injective(enc)
    ensures var records := Generated(cfg, enc, draws);
            && (forall r <- records :: Whole(|r.batch|))
            && (forall i :: 0 <= i < |records| ==> records[i].id == i + 1)
            && (cfg.batchSize > 0 ==>
                  forall i :: 0 <= i < |records| - 1 ==> records[i].batchSize == cfg.batchSize)
            && var read := DecodeRecords(records);
               && |read| == (if cfg.keyHigh < cfg.keyLow then 0 else cfg.keyHigh + 1 - cfg.keyLow)
               && (forall k :: 0 <= k < |read| ==> read[k] == BudgetOf(cfg, enc, draws, cfg.keyLow + k))
               && (forall j, k :: 0 <= j < k < |read| ==> read[j].campaignID != read[k].campaignID)
  {
    hide EncodeBudgets, DecodeBudgets, DecodeRecords, Numbered, Chunks, Flatten, BudgetsTo, BudgetOf;
    var all := BudgetsTo(cfg, enc, draws, cfg.keyHigh + 1);
    ChunksMeaning(all, cfg.batchSize);
    NumberedDecode(Chunks(all, cfg.batchSize), 1);
    forall j, k | 0 <= j < k < |all|
      ensures all[j].campaignID != all[k].campaignID
    {
      DifferentCampaigns(cfg, enc, draws, cfg.keyLow + j, cfg.keyLow + k);
    }
  }

  lemma DifferentCampaigns(cfg: Config, enc: Encryptor, draws: nat -> nat, i: nat, j: nat)
    requires Resolved(cfg) && Injective(enc) && i < j < TWO_64
    ensures BudgetOf(cfg, enc, draws, i).campaignID != BudgetOf(cfg, enc, draws, j).campaignID
  {}
}
