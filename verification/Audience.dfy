/** The audience generator: how many audiences a campaign gets, which, and the index turned around. */
module Audience {
  import opened Bytes

  type Key = seq<byte>

  const DEFAULT_MIN_AUDIENCES: int64 := 10
  const DEFAULT_MAX_AUDIENCES: int64 := 20
  const DEFAULT_MAX_AUDIENCE_ID: uint64 := 100_000

  function AsUint64(x: int64): uint64 { if x < 0 then x + TWO_64 else x }

  class Config {
    var minAudiences: int64
    var maxAudiences: int64
    var maxAudienceID: uint64

    /** What the generators rely on. */
    predicate Bounded()
      reads this
    {
      0 <= minAudiences <= maxAudiences <= maxAudienceID && maxAudienceID > 0
    }

    constructor (minAudiences: int64, maxAudiences: int64, maxAudienceID: uint64)
      ensures this.minAudiences == minAudiences && this.maxAudiences == maxAudiences
      ensures this.maxAudienceID == maxAudienceID
    {
      this.minAudiences, this.maxAudiences, this.maxAudienceID := minAudiences, maxAudiences, maxAudienceID;
    }

    /** The bounds come out right exactly when neither count is negative; sensible values are left alone. */
    method Resolve()
      modifies this
      ensures Bounded() <==> old(minAudiences) >= 0 && old(maxAudiences) >= 0
      ensures maxAudiences == old(if minAudiences == 0 && maxAudiences == 0 then 20 else maxAudiences)
      ensures var asked := if old(minAudiences) == 0 then 10 else old(minAudiences);
              minAudiences <= asked && minAudiences <= maxAudiences && minAudiences in {asked, maxAudiences}
      ensures var asked := if old(maxAudienceID) == 0 then 100_000 else old(maxAudienceID);
              && maxAudienceID >= asked && maxAudienceID >= AsUint64(maxAudiences)
              && maxAudienceID in {asked, AsUint64(maxAudiences)}
      ensures old(0 < minAudiences <= maxAudiences <= maxAudienceID) ==>
                && minAudiences == old(minAudiences) && maxAudiences == old(maxAudiences)
                && maxAudienceID == old(maxAudienceID)
    {
      if minAudiences == 0 && maxAudiences == 0 {
        minAudiences, maxAudiences := DEFAULT_MIN_AUDIENCES, DEFAULT_MAX_AUDIENCES;
      } else if minAudiences == 0 {
        if maxAudiences < DEFAULT_MIN_AUDIENCES {
          minAudiences := maxAudiences;
        } else {
          minAudiences := DEFAULT_MIN_AUDIENCES;
        }
      } else if minAudiences > maxAudiences {
        minAudiences := maxAudiences;
      }
      if maxAudienceID == 0 {
        maxAudienceID := DEFAULT_MAX_AUDIENCE_ID;
      }
      if maxAudienceID < AsUint64(maxAudiences) {
        maxAudienceID := AsUint64(maxAudiences);
      }
    }
  }

  // Which audiences

  type Encryptor = uint64 -> Key

  function Encrypt(enc: Encryptor, i: uint64): Key { enc(i) }

  ghost predicate Injective(enc: Encryptor) {
    forall i: uint64, j: uint64 :: Encrypt(enc, i) == Encrypt(enc, j) ==> i == j
  }

  /** How many audiences a seed gets. */
  function Count(lo: int64, hi: int64, seed: uint64): (n: nat)
    requires 0 <= lo <= hi
    ensures lo <= n <= hi
  {
    seed % (hi - lo + 1) + lo
  }

  /** The seed, wrapped into the range of counts; every count of the range is some seed's. */
  lemma CountMeaning(lo: int64, hi: int64, seed: uint64, n: nat)
    requires 0 <= lo <= hi
    ensures ((Count(lo, hi, seed) - lo) - seed) % (hi - lo + 1) == 0
    ensures lo <= n <= hi && seed == n - lo ==> Count(lo, hi, seed) == n
  {
    var m := hi - lo + 1;
    var q, r := seed / m, seed % m;
    assert r - seed == (-q) * m + 0;
    Unique(r - seed, -q, 0, m);
    if lo <= n <= hi && seed == n - lo {
      Unique(seed, 0, seed, m);
    }
  }

  /** The i-th audience number; the sum wraps around. */
  function Number(seed: uint64, i: nat, limit: uint64): (x: uint64)
    requires limit > 0
    ensures 1 <= x <= limit
  {
    (seed + i) % TWO_64 % limit + 1
  }

  function Numbers(seed: uint64, n: nat, limit: uint64): (s: seq<uint64>)
    requires limit > 0
    ensures |s| == n && forall i :: 0 <= i < n ==> s[i] == Number(seed, i, limit)
  {
    seq(n, i requires 0 <= i < n => Number(seed, i, limit))
  }

  /** Counting down from a number within one round. */
  lemma Below(x: int, t: nat, m: int)
    requires m > 0 && t <= m
    ensures (x - t) % m == if t <= x % m then x % m - t else x % m - t + m
  {
    var q, r := x / m, x % m;
    if t <= r {
      Unique(x - t, q, r - t, m);
    } else {
      assert x - t == (q - 1) * m + (r - t + m);
      Unique(x - t, q - 1, r - t + m, m);
    }
  }

  lemma NearlyEqual(x: int, t: int, m: int)
    requires 0 < t < m
    ensures (x + t) % m != x % m
  {
    Below(x + t, t, m);
  }

  /**
   Numbers of one seed repeat exactly when the sum wraps, 2^64 is not a
   multiple of the limit, and more numbers are drawn than 2^64 leaves over.
   */
  predicate NoRepeats(seed: uint64, n: nat, limit: uint64)
    requires limit > 0
  {
    seed + n <= TWO_64 || TWO_64 % limit == 0 || n <= TWO_64 % limit
  }

  lemma NumbersDistinctIff(seed: uint64, n: nat, limit: uint64)
    requires 0 < limit && n <= limit
    ensures Distinct(Numbers(seed, n, limit)) <==> NoRepeats(seed, n, limit)
  {
    if NoRepeats(seed, n, limit) {
      forall i, j | 0 <= i < j < n
        ensures Number(seed, i, limit) != Number(seed, j, limit)
      {
        NumbersDiffer(seed, n, limit, i, j);
      }
    } else {
      NumbersRepeat(seed, n, limit);
    }
  }

  lemma NumbersDiffer(seed: uint64, n: nat, limit: uint64, i: nat, j: nat)
    requires 0 < limit && i < j < n <= limit && NoRepeats(seed, n, limit)
    ensures Number(seed, i, limit) != Number(seed, j, limit)
  {
    hide Number;
    if seed + j < TWO_64 {
      Unwrapped(seed, i, limit);
      Unwrapped(seed, j, limit);
      NearlyEqual(seed + i, j - i, limit);
    } else {
      Wrapped(seed, j, limit);
      if seed + i < TWO_64 {
        Unwrapped(seed, i, limit);
        Below(TWO_64, TWO_64 - (seed + i), limit);
      } else {
        Wrapped(seed, i, limit);
      }
    }
  }

  lemma Unwrapped(seed: uint64, i: nat, limit: uint64)
    requires 0 < limit && seed + i < TWO_64
    ensures Number(seed, i, limit) == (seed + i) % limit + 1
  {}

  lemma Wrapped(seed: uint64, i: nat, limit: uint64)
    requires 0 < limit && TWO_64 <= seed + i < TWO_64 + limit
    ensures Number(seed, i, limit) == seed + i - TWO_64 + 1
  {
    var x := seed + i - TWO_64;
    Unique(seed + i, 1, x, TWO_64);
    Unique(x, 0, x, limit);
  }

  lemma NumbersRepeat(seed: uint64, n: nat, limit: uint64)
    requires 0 < limit && n <= limit && !NoRepeats(seed, n, limit)
    ensures !Distinct(Numbers(seed, n, limit))
  {
    var left := TWO_64 % limit;
    var before := TWO_64 - seed;
    var t := if left <= before then left else before;
    var i, j := before - t, before + (left - t);
    Below(TWO_64, t, limit);
    Unwrapped(seed, i, limit);
    Wrapped(seed, j, limit);
    assert Numbers(seed, n, limit)[i] == Numbers(seed, n, limit)[j];
  }

  /** Two of the last key's numbers coincide when there are only three. */
  lemma NumbersRepeatExample()
    ensures !Distinct(Numbers(TWO_64 - 1, 2, 3))
  {
    Unique(TWO_64, 6148914691236517205, 1, 3);
    NumbersDistinctIff(TWO_64 - 1, 2, 3);
  }

  // The lists

  function Keys(enc: Encryptor, numbers: seq<uint64>): (s: seq<Key>)
    ensures |s| == |numbers| && forall i :: 0 <= i < |s| ==> s[i] == Encrypt(enc, numbers[i])
  {
    seq(|numbers|, i requires 0 <= i < |numbers| => Encrypt(enc, numbers[i]))
  }

  function AudiencesOf(cfg: Config, enc: Encryptor, seed: uint64): seq<Key>
    requires cfg.Bounded()
    reads cfg
  {
    Keys(enc, Numbers(seed, Count(cfg.minAudiences, cfg.maxAudiences, seed), cfg.maxAudienceID))
  }

  method AudiencesSlice(seed: uint64, cfg: Config, enc: Encryptor) returns (a: seq<Key>)
    requires cfg.Bounded()
    ensures a == AudiencesOf(cfg, enc, seed)
  {
    hide Count, Number;
    var n := Count(cfg.minAudiences, cfg.maxAudiences, seed);
    var keys := new Key[n](_ => []);
    for i := 0 to n
      invariant forall k :: 0 <= k < i ==> keys[k] == Encrypt(enc, Number(seed, k, cfg.maxAudienceID))
    {
      keys[i] := Encrypt(enc, Number(seed, i, cfg.maxAudienceID));
    }
    a := keys[..];
  }

  /** The device's form of the same list: the keys one after the other. */
  method AudiencesConcat(seed: uint64, cfg: Config, enc: Encryptor) returns (a: Key)
    requires cfg.Bounded()
    ensures a == Flatten(AudiencesOf(cfg, enc, seed))
  {
    hide Count, Number, Flatten;
    var n := Count(cfg.minAudiences, cfg.maxAudiences, seed);
    ghost var keys := AudiencesOf(cfg, enc, seed);
    a := [];
    assert a == Flatten(keys[..0]) by { FlattenNothing(); }
    for i := 0 to n
      invariant a == Flatten(keys[..i])
    {
      FlattenSnoc(keys[..i], keys[i]);
      assert keys[..i + 1] == keys[..i] + [keys[i]];
      a := a + Encrypt(enc, Number(seed, i, cfg.maxAudienceID));
    }
    assert keys[..n] == keys;
  }

  lemma FlattenNothing()
    ensures Flatten<byte>([]) == []
  {}

  predicate SeedRepeatsNothing(cfg: Config, seed: uint64)
    requires cfg.Bounded()
    reads cfg
  {
    NoRepeats(seed, Count(cfg.minAudiences, cfg.maxAudiences, seed), cfg.maxAudienceID)
  }

  /** A campaign's list names no audience twice, exactly when the sum does no harm. */
  lemma AudiencesDistinctIff(cfg: Config, enc: Encryptor, seed: uint64)
    requires cfg.Bounded() && Injective(enc)
    ensures Distinct(AudiencesOf(cfg, enc, seed)) <==> SeedRepeatsNothing(cfg, seed)
  {
    hide Count, Number, NoRepeats;
    var n := Count(cfg.minAudiences, cfg.maxAudiences, seed);
    var numbers := Numbers(seed, n, cfg.maxAudienceID);
    NumbersDistinctIff(seed, n, cfg.maxAudienceID);
    var keys := AudiencesOf(cfg, enc, seed);
    if Distinct(numbers) {
      forall i, j | 0 <= i < j < n
        ensures keys[i] != keys[j]
      {
        assert numbers[i] != numbers[j];
      }
    } else {
      var i, j :| 0 <= i < j < n && numbers[i] == numbers[j];
      assert keys[i] == keys[j];
    }
  }

  // The index turned around

  datatype ReversedAudience = ReversedAudience(campaignID: Key, audienceIDs: seq<Key>)

  class AudienceRecord {
    const audienceID: Key
    var campaignIDs: seq<Key>

    constructor (audienceID: Key, campaignIDs: seq<Key>)
      ensures this.audienceID == audienceID && this.campaignIDs == campaignIDs
    {
      this.audienceID, this.campaignIDs := audienceID, campaignIDs;
    }
  }

  /** How often a key is listed, written as that many campaigns. */
  function Repeated(cid: Key, aids: seq<Key>, aid: Key): seq<Key> {
    if aids == [] then []
    else Repeated(cid, aids[..|aids| - 1], aid) + if aids[|aids| - 1] == aid then [cid] else []
  }

  /** The campaigns that list an audience, in the order they came. */
  function Listing(rs: seq<ReversedAudience>, aid: Key): seq<Key> {
    if rs == [] then []
    else
      var r := rs[|rs| - 1];
      Listing(rs[..|rs| - 1], aid) + Repeated(r.campaignID, r.audienceIDs, aid)
  }

  ghost predicate Lists(r: ReversedAudience, cid: Key, aid: Key) {
    r.campaignID == cid && aid in r.audienceIDs
  }

  lemma FirstListed(s: seq<Key>)
    ensures s != [] ==> s[0] in s
  {}

  lemma {:induction false} RepeatedMeaning(cid: Key, aids: seq<Key>, aid: Key)
    ensures forall x :: x in Repeated(cid, aids, aid) <==> x == cid && aid in aids
    ensures Distinct(aids) ==> |Repeated(cid, aids, aid)| <= 1
  {
    if aids != [] {
      var front, last := aids[..|aids| - 1], aids[|aids| - 1];
      assert aids == front + [last];
      RepeatedMeaning(cid, front, aid);
      FirstListed(Repeated(cid, front, aid));
    }
  }

  /** Exactly the transpose. */
  lemma {:induction false} TransposeMeaning(rs: seq<ReversedAudience>, cid: Key, aid: Key)
    ensures cid in Listing(rs, aid) <==> exists r <- rs :: Lists(r, cid, aid)
  {
    hide Repeated;
    if rs != [] {
      var front, r := rs[..|rs| - 1], rs[|rs| - 1];
      assert rs == front + [r];
      TransposeMeaning(front, cid, aid);
      RepeatedMeaning(r.campaignID, r.audienceIDs, aid);
      assert (exists x <- rs :: Lists(x, cid, aid))
             <==> (exists x <- front :: Lists(x, cid, aid)) || Lists(r, cid, aid);
    }
  }

  lemma {:induction false} RepeatedCount(cid: Key, aids: seq<Key>, aid: Key)
    ensures |Repeated(cid, aids, aid)| == multiset(aids)[aid]
  {
    if aids != [] {
      RepeatedCount(cid, aids[..|aids| - 1], aid);
      assert aids == aids[..|aids| - 1] + [aids[|aids| - 1]];
    }
  }

  /** Later records are listed behind earlier ones, a campaign as often as it names the audience. */
  lemma {:induction false} ListingInOrder(rs: seq<ReversedAudience>, qs: seq<ReversedAudience>, aid: Key)
    ensures Listing(rs + qs, aid) == Listing(rs, aid) + Listing(qs, aid)
    ensures |qs| == 1 ==> var listed := Listing(qs, aid);
                          && |listed| == multiset(qs[0].audienceIDs)[aid]
                          && forall cid <- listed :: cid == qs[0].campaignID
  {
    hide Repeated;
    if qs == [] {
      assert rs + qs == rs;
    } else {
      var front, q := qs[..|qs| - 1], qs[|qs| - 1];
      ListingInOrder(rs, front, aid);
      assert (rs + qs)[..|rs + qs| - 1] == rs + front && (rs + qs)[|rs + qs| - 1] == q;
      Rebracket(Listing(rs, aid), Listing(front, aid), Repeated(q.campaignID, q.audienceIDs, aid));
      RepeatedCount(q.campaignID, q.audienceIDs, aid);
      RepeatedMeaning(q.campaignID, q.audienceIDs, aid);
      assert |qs| == 1 ==> front == [];
    }
  }

  ghost predicate NoRepeatedCampaign(rs: seq<ReversedAudience>) {
    && (forall i, j :: 0 <= i < j < |rs| ==> rs[i].campaignID != rs[j].campaignID)
    && forall i :: 0 <= i < |rs| ==> Distinct(rs[i].audienceIDs)
  }

  lemma {:induction false} ListingDistinct(rs: seq<ReversedAudience>, aid: Key)
    requires NoRepeatedCampaign(rs)
    ensures Distinct(Listing(rs, aid))
  {
    hide Repeated;
    if rs != [] {
      var front, r := rs[..|rs| - 1], rs[|rs| - 1];
      ListingDistinct(front, aid);
      RepeatedMeaning(r.campaignID, r.audienceIDs, aid);
      TransposeMeaning(front, r.campaignID, aid);
      assert Distinct(r.audienceIDs);
      var listed, more := Listing(front, aid), Repeated(r.campaignID, r.audienceIDs, aid);
      assert r.campaignID !in listed;
      assert more == [] || (more[0] in more && more == [r.campaignID]);
    }
  }

  class ReverseIndex {
    var data: map<Key, AudienceRecord>

    /** Each record stands under its own audience, so no two keys share one. */
    ghost predicate Valid()
      reads this
    {
      forall k <- data :: data[k].audienceID == k
    }

    ghost function Listed(aid: Key): seq<Key>
      reads this, data.Values
    {
      if aid in data then data[aid].campaignIDs else []
    }

    /** Every audience mentioned has a record, and every record lists some campaign. */
    ghost predicate Holds(rs: seq<ReversedAudience>)
      reads this, data.Values
    {
      && (forall aid :: Listed(aid) == Listing(rs, aid))
      && (forall aid <- data :: Listed(aid) != [])
    }

    constructor ()
      ensures Valid() && data == map[]
    {
      data := map[];
    }

    method Add(cid: Key, aid: Key)
      requires Valid()
      modifies this, data.Values
      ensures Valid() && fresh(data.Values - old(data.Values))
      ensures data.Keys == old(data.Keys) + {aid}
      ensures Listed(aid) == old(Listed(aid)) + [cid]
      ensures forall other :: other != aid ==> Listed(other) == old(Listed(other))
    {
      if aid !in data {
        var rc := new AudienceRecord(aid, [cid]);
        data := data[aid := rc];
        return;
      }
      var rc := data[aid];
      rc.campaignIDs := rc.campaignIDs + [cid];
    }

    /** As `Holds`, with one more campaign that has come as far as `aids` in its list. */
    ghost predicate HoldsAlso(rs: seq<ReversedAudience>, cid: Key, aids: seq<Key>)
      reads this, data.Values
    {
      && (forall aid :: Listed(aid) == Listing(rs, aid) + Repeated(cid, aids, aid))
      && (forall aid <- data :: Listed(aid) != [])
    }

    method AddNext(cid: Key, aid: Key, ghost rs: seq<ReversedAudience>, ghost front: seq<Key>)
      requires Valid() && HoldsAlso(rs, cid, front)
      modifies this, data.Values
      ensures Valid() && HoldsAlso(rs, cid, front + [aid]) && fresh(data.Values - old(data.Values))
    {
      hide Listing, Repeated, Listed;
      forall other: Key { RepeatedSnoc(cid, front, aid, other); }
      Add(cid, aid);
    }

    /** One campaign's list, on top of what `rs` left. */
    method AddAll(r: ReversedAudience, ghost rs: seq<ReversedAudience>)
      requires Valid() && Holds(rs)
      modifies this, data.Values
      ensures Valid() && Holds(rs + [r]) && fresh(data.Values - old(data.Values))
    {
      hide Listing, Repeated, Listed, HoldsAlso;
      var aids := r.audienceIDs;
      HoldsStart(rs, r.campaignID);
      for j := 0 to |aids|
        invariant Valid() && fresh(data.Values - old(data.Values))
        invariant HoldsAlso(rs, r.campaignID, aids[..j])
      {
        AddNext(r.campaignID, aids[j], rs, aids[..j]);
        assert aids[..j + 1] == aids[..j] + [aids[j]];
      }
      assert aids[..|aids|] == aids;
      HoldsEnd(rs, r);
    }

    lemma HoldsStart(rs: seq<ReversedAudience>, cid: Key)
      requires Holds(rs)
      ensures HoldsAlso(rs, cid, [])
    {
      hide Listing;
    }

    lemma HoldsEnd(rs: seq<ReversedAudience>, r: ReversedAudience)
      requires HoldsAlso(rs, r.campaignID, r.audienceIDs)
      ensures Holds(rs + [r])
    {
      hide Listing, Repeated, Listed;
      forall aid: Key { ListingSnoc(rs, r, aid); }
    }

    /** The channel's campaigns in; one record for each audience out, in any order. */
    method Process(rs: seq<ReversedAudience>) returns (out: seq<AudienceRecord>)
      requires data == map[]
      modifies this
      ensures forall i, j :: 0 <= i < j < |out| ==> out[i].audienceID != out[j].audienceID
      ensures forall aid :: Listing(rs, aid) != [] <==> exists rc <- out :: rc.audienceID == aid
      ensures forall rc <- out :: rc.campaignIDs == Listing(rs, rc.audienceID)
    {
      hide Listing;
      ListingNothing();
      for i := 0 to |rs|
        invariant Valid() && fresh(data.Values) && Holds(rs[..i])
      {
        AddAll(rs[i], rs[..i]);
        assert rs[..i + 1] == rs[..i] + [rs[i]];
      }
      assert rs[..|rs|] == rs;
      out := Drain(rs);
    }

    method Drain(ghost rs: seq<ReversedAudience>) returns (out: seq<AudienceRecord>)
      requires Valid() && Holds(rs)
      ensures forall i, j :: 0 <= i < j < |out| ==> out[i].audienceID != out[j].audienceID
      ensures forall aid :: Listing(rs, aid) != [] <==> exists rc <- out :: rc.audienceID == aid
      ensures forall rc <- out :: rc.campaignIDs == Listing(rs, rc.audienceID)
    {
      hide Listing;
      out := [];
      var left := data.Keys;
      while left != {}
        invariant left <= data.Keys
        invariant forall i, j :: 0 <= i < j < |out| ==> out[i].audienceID != out[j].audienceID
        invariant forall rc <- out :: rc.audienceID in data.Keys - left && data[rc.audienceID] == rc
        invariant forall k <- data.Keys - left :: data[k] in out
      {
        var k :| k in left;
        left := left - {k};
        out := out + [data[k]];
      }
      forall aid: Key
        ensures Listing(rs, aid) != [] <==> exists rc <- out :: rc.audienceID == aid
      {
        assert Listed(aid) == Listing(rs, aid);
        if aid in data {
          assert data[aid] in out && data[aid].audienceID == aid;
        }
      }
    }
  }

  lemma ListingSnoc(rs: seq<ReversedAudience>, r: ReversedAudience, aid: Key)
    ensures Listing(rs + [r], aid) == Listing(rs, aid) + Repeated(r.campaignID, r.audienceIDs, aid)
  {
    assert (rs + [r])[..|rs|] == rs;
  }

  lemma RepeatedSnoc(cid: Key, front: seq<Key>, aid: Key, other: Key)
    ensures Repeated(cid, front + [aid], other) == Repeated(cid, front, other) + if aid == other then [cid] else []
  {
    assert (front + [aid])[..|front|] == front;
  }

  lemma ListingNothing()
    ensures forall aid :: Listing([], aid) == []
  {}

  // Generator and index together

  function Reversed(cfg: Config, enc: Encryptor, low: uint64, end: uint64): (rs: seq<ReversedAudience>)
    requires cfg.Bounded() && low <= end
    reads cfg
    ensures |rs| == end - low
    ensures forall k :: 0 <= k < |rs| ==>
              rs[k] == ReversedAudience(Encrypt(enc, low + k), AudiencesOf(cfg, enc, low + k))
  {
    if low == end then []
    else
      Reversed(cfg, enc, low, end - 1) + [ReversedAudience(Encrypt(enc, end - 1), AudiencesOf(cfg, enc, end - 1))]
  }

  /** Without the requirement the loop does not end: see `KeyRange.LoopEndsIff`. */
  method ReversedAudienceGenerator(cfg: Config, enc: Encryptor, keyLow: uint64, keyHigh: uint64)
    returns (out: seq<ReversedAudience>)
    requires cfg.Bounded() && keyHigh < TWO_64 - 1
    ensures out == if keyLow <= keyHigh then Reversed(cfg, enc, keyLow, keyHigh + 1) else []
  {
    hide AudiencesOf;
    out := [];
    var i := keyLow;
    while i <= keyHigh
      invariant keyLow <= i && (i <= keyHigh + 1 || i == keyLow)
      invariant out == Reversed(cfg, enc, keyLow, i)
    {
      var audiences := AudiencesSlice(i, cfg, enc);
      out := out + [ReversedAudience(Encrypt(enc, i), audiences)];
      i := i + 1;
    }
  }

  /** The index lists a campaign under exactly its own audiences. */
  lemma GeneratorTransposes(cfg: Config, enc: Encryptor, low: uint64, end: uint64, seed: uint64, aid: Key)
    requires cfg.Bounded() && Injective(enc) && low <= seed < end
    ensures Encrypt(enc, seed) in Listing(Reversed(cfg, enc, low, end), aid) <==> aid in AudiencesOf(cfg, enc, seed)
  {
    hide AudiencesOf, Listing, Count;
    var rs := Reversed(cfg, enc, low, end);
    TransposeMeaning(rs, Encrypt(enc, seed), aid);
    assert rs[seed - low] in rs;
    if aid in AudiencesOf(cfg, enc, seed) {
      assert Lists(rs[seed - low], Encrypt(enc, seed), aid);
    }
  }

  lemma {:induction false} RepeatedTwice(cid: Key, aids: seq<Key>, aid: Key, a: nat, b: nat)
    requires a < b < |aids| && aids[a] == aid == aids[b]
    ensures |Repeated(cid, aids, aid)| >= 2
  {
    var front := aids[..|aids| - 1];
    if b < |front| {
      RepeatedTwice(cid, front, aid, a, b);
    } else {
      RepeatedMeaning(cid, front, aid);
      assert front[a] in front;
      assert cid in Repeated(cid, front, aid);
    }
  }

  lemma {:induction false} ListingRepeats(rs: seq<ReversedAudience>, k: nat, aid: Key, a: nat, b: nat)
    requires k < |rs| && a < b < |rs[k].audienceIDs| && rs[k].audienceIDs[a] == aid == rs[k].audienceIDs[b]
    ensures !Distinct(Listing(rs, aid))
  {
    hide Repeated;
    var front, r := rs[..|rs| - 1], rs[|rs| - 1];
    var listed, more := Listing(front, aid), Repeated(r.campaignID, r.audienceIDs, aid);
    var all: seq<Key> := listed + more;
    if k < |front| {
      ListingRepeats(front, k, aid, a, b);
      var i, j :| 0 <= i < j < |listed| && listed[i] == listed[j];
      assert all[i] == all[j];
    } else {
      RepeatedTwice(r.campaignID, r.audienceIDs, aid, a, b);
      RepeatedMeaning(r.campaignID, r.audienceIDs, aid);
      assert more[0] in more && more[1] in more;
      assert all[|listed|] == all[|listed| + 1];
    }
  }

  lemma SomeRepeat<T>(s: seq<T>) returns (i: nat, j: nat)
    requires !Distinct(s)
    ensures i < j < |s| && s[i] == s[j]
  {
    i, j :| 0 <= i < j < |s| && s[i] == s[j];
  }

  /** No campaign appears twice under any audience exactly when no key of the range repeats a number. */
  lemma GeneratorListsOnceIff(cfg: Config, enc: Encryptor, low: uint64, end: uint64)
    requires cfg.Bounded() && Injective(enc) && low <= end
    ensures (forall aid :: Distinct(Listing(Reversed(cfg, enc, low, end), aid)))
            <==> forall seed: uint64 :: low <= seed < end ==> SeedRepeatsNothing(cfg, seed)
  {
    hide AudiencesOf, Listing, SeedRepeatsNothing, Distinct;
    var rs := Reversed(cfg, enc, low, end);
    forall k | 0 <= k < |rs|
      ensures Distinct(rs[k].audienceIDs) <==> SeedRepeatsNothing(cfg, low + k)
    {
      AudiencesDistinctIff(cfg, enc, low + k);
    }
    if forall seed: uint64 :: low <= seed < end ==> SeedRepeatsNothing(cfg, seed) {
      forall aid: Key { ListingDistinct(rs, aid); }
    } else {
      var seed: uint64 :| low <= seed < end && !SeedRepeatsNothing(cfg, seed);
      var aids := rs[seed - low].audienceIDs;
      var a, b := SomeRepeat(aids);
      var aid := aids[a];
      ListingRepeats(rs, seed - low, aid, a, b);
      assert !Distinct(Listing(Reversed(cfg, enc, low, end), aid));
    }
  }
}
