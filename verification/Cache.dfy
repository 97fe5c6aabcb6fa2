/** The caches an auction reads: campaigns by index, audiences as index lists, and the scanned budgets. */
module Cache {
  import opened Bytes
  import Lookup
  import BudgetCodec

  type Id = seq<byte>
  type Budget = BudgetCodec.Budget

  // Parallel scans

  /** The segments' items in one order the workers' lock may give: each segment's own order is kept. */
  ghost predicate Merges<T>(segments: seq<seq<T>>, order: seq<T>)
    decreases |order|
  {
    if order == [] then forall k :: 0 <= k < |segments| ==> segments[k] == []
    else
      exists k: nat :: Takes(segments, order, k) && Merges(segments[k := segments[k][1..]], order[1..])
  }

  predicate Takes<T(==)>(segments: seq<seq<T>>, order: seq<T>, k: nat) {
    order != [] && k < |segments| && segments[k] != [] && segments[k][0] == order[0]
  }

  lemma {:induction false} FlattenEmpty<T>(segments: seq<seq<T>>)
    requires forall k :: 0 <= k < |segments| ==> segments[k] == []
    ensures Flatten(segments) == []
  {
    if segments != [] {
      FlattenEmpty(segments[1..]);
    }
  }

  lemma {:induction false} FlattenTake<T>(segments: seq<seq<T>>, k: nat)
    requires k < |segments| && segments[k] != []
    ensures multiset(Flatten(segments)) == multiset{segments[k][0]} + multiset(Flatten(segments[k := segments[k][1..]]))
  {
    hide Flatten;
    var x, left := segments[k][0], segments[k][1..];
    var next := segments[k := left];
    var head, rest := segments[0], segments[1..];
    FlattenCons(head, rest);
    assert segments == [head] + rest;
    if k == 0 {
      FlattenCons(left, rest);
      assert next == [left] + rest && head == [x] + left;
      assert Flatten(segments) == [x] + Flatten(next);
    } else {
      FlattenTake(rest, k - 1);
      FlattenCons(head, rest[k - 1 := left]);
      assert next == [head] + rest[k - 1 := left];
      Exchange(multiset(head), multiset{x}, multiset(Flatten(rest[k - 1 := left])));
    }
  }

  lemma Exchange<T>(a: multiset<T>, b: multiset<T>, c: multiset<T>)
    ensures a + (b + c) == b + (a + c)
  {}

  /** Whatever the order, every item is delivered once. */
  lemma {:induction false} MergesAll<T>(segments: seq<seq<T>>, order: seq<T>)
    requires Merges(segments, order)
    ensures multiset(order) == multiset(Flatten(segments))
    decreases |order|
  {
    if order == [] {
      FlattenEmpty(segments);
    } else {
      var k: nat :| Takes(segments, order, k) && Merges(segments[k := segments[k][1..]], order[1..]);
      MergesAll(segments[k := segments[k][1..]], order[1..]);
      FlattenTake(segments, k);
      assert order == [order[0]] + order[1..];
    }
  }

  // Campaigns

  datatype CampaignItem = CampaignItem(id: Id, maxCPM: int)

  function IsValid(valid: CampaignItem -> bool, c: CampaignItem): bool { valid(c) }

  function ValidOnes(valid: CampaignItem -> bool, items: seq<CampaignItem>): seq<CampaignItem> {
    if items == [] then []
    else
      var c := items[|items| - 1];
      ValidOnes(valid, items[..|items| - 1]) + if IsValid(valid, c) then [c] else []
  }

  /** An item is kept as often as it was scanned, if it is valid, and not at all if it is not. */
  lemma {:induction false} ValidOnesMeaning(valid: CampaignItem -> bool, items: seq<CampaignItem>, c: CampaignItem)
    ensures multiset(ValidOnes(valid, items))[c] == if IsValid(valid, c) then multiset(items)[c] else 0
  {
    hide IsValid;
    if items != [] {
      var front, last := items[..|items| - 1], items[|items| - 1];
      ValidOnesMeaning(valid, front, c);
      assert items == front + [last];
    }
  }

  lemma {:induction false} ValidOnesInOrder(valid: CampaignItem -> bool, s: seq<CampaignItem>, t: seq<CampaignItem>)
    ensures ValidOnes(valid, s + t) == ValidOnes(valid, s) + ValidOnes(valid, t)
  {
    hide IsValid;
    if t == [] {
      assert s + t == s;
    } else {
      var front, c := t[..|t| - 1], t[|t| - 1];
      ValidOnesInOrder(valid, s, front);
      assert (s + t)[..|s + t| - 1] == s + front && (s + t)[|s + t| - 1] == c;
      Rebracket(ValidOnes(valid, s), ValidOnes(valid, front), if IsValid(valid, c) then [c] else []);
    }
  }

  class Campaign {
    var data: seq<CampaignItem>
    var idToIndex: map<Id, nat>

    /** An id leads to a campaign that has it, the last one scanned, and every campaign's id leads somewhere. */
    ghost predicate Valid()
      reads this
    {
      && (forall id <- idToIndex :: idToIndex[id] < |data| && data[idToIndex[id]].id == id)
      && (forall i :: 0 <= i < |data| ==> data[i].id in idToIndex && i <= idToIndex[data[i].id])
    }

    constructor ()
      ensures Valid() && data == [] && idToIndex == map[]
    {
      data, idToIndex := [], map[];
    }

    method Consume(campaign: CampaignItem, valid: CampaignItem -> bool)
      requires Valid()
      modifies this
      ensures Valid() && data == old(data) + if IsValid(valid, campaign) then [campaign] else []
    {
      if IsValid(valid, campaign) {
        idToIndex := idToIndex[campaign.id := |data|];
        data := data + [campaign];
      }
    }

    function GetIndex(id: Id): (r: Option<nat>)
      requires Valid()
      reads this
      ensures r.Some? ==> r.value < Size() && data[r.value].id == id
      ensures r.None? <==> forall i :: 0 <= i < |data| ==> data[i].id != id
    {
      if id in idToIndex then Some(idToIndex[id]) else None
    }

    function Size(): nat
      reads this
    {
      |data|
    }
  }

  /** `items` come in the order of the scan; a scan that fails leaves no cache. */
  method NewCampaign(items: seq<CampaignItem>, failed: bool, valid: CampaignItem -> bool) returns (cache: Campaign?)
    ensures cache == null <==> failed
    ensures cache != null ==> fresh(cache) && cache.Valid() && cache.data == ValidOnes(valid, items)
  {
    hide IsValid;
    var c := new Campaign();
    for i := 0 to |items|
      invariant c.Valid() && fresh(c) && c.data == ValidOnes(valid, items[..i])
    {
      assert items[..i + 1][..i] == items[..i];
      c.Consume(items[i], valid);
    }
    assert items[..|items|] == items;
    cache := if failed then null else c;
  }

  // Audiences

  datatype AudienceItem = AudienceItem(id: Id, campaignIDs: seq<Id>)

  /** The indices of the known campaigns of a list, in order. */
  function Indices(campaigns: Campaign, ids: seq<Id>): (s: seq<nat>)
    requires campaigns.Valid()
    reads campaigns
    ensures forall c <- s :: c < campaigns.Size()
  {
    if ids == [] then []
    else
      var r := campaigns.GetIndex(ids[|ids| - 1]);
      Indices(campaigns, ids[..|ids| - 1]) + if r.Some? then [r.value] else []
  }

  /** A later item of the same audience replaces the earlier one. */
  function AudienceMap(campaigns: Campaign, items: seq<AudienceItem>): map<Id, seq<nat>>
    requires campaigns.Valid()
    reads campaigns
  {
    if items == [] then map[]
    else
      var a := items[|items| - 1];
      AudienceMap(campaigns, items[..|items| - 1])[a.id := Indices(campaigns, a.campaignIDs)]
  }

  /** An index is listed exactly when some listed id leads to it. */
  lemma {:induction false} IndicesMeaning(campaigns: Campaign, ids: seq<Id>, c: nat)
    requires campaigns.Valid()
    ensures c in Indices(campaigns, ids) <==> exists id <- ids :: campaigns.GetIndex(id) == Some(c)
  {
    if ids != [] {
      var front, last := ids[..|ids| - 1], ids[|ids| - 1];
      IndicesMeaning(campaigns, front, c);
      assert ids == front + [last];
      assert (exists id <- ids :: campaigns.GetIndex(id) == Some(c))
             <==> (exists id <- front :: campaigns.GetIndex(id) == Some(c)) || campaigns.GetIndex(last) == Some(c);
    }
  }

  /** The order is that of the ids: known ids keep their places, unknown ones leave none. */
  lemma {:induction false} IndicesInOrder(campaigns: Campaign, a: seq<Id>, b: seq<Id>)
    requires campaigns.Valid()
    ensures Indices(campaigns, a + b) == Indices(campaigns, a) + Indices(campaigns, b)
  {
    if b == [] {
      assert a + b == a;
    } else {
      IndicesInOrder(campaigns, a, b[..|b| - 1]);
      assert (a + b)[..|a + b| - 1] == a + b[..|b| - 1];
    }
  }

  /** The item whose list counts: the last one of its audience. */
  predicate LastOf(items: seq<AudienceItem>, k: nat) {
    k < |items| && forall j :: k < j < |items| ==> items[j].id != items[k].id
  }

  /** Every audience scanned is in the map, under the list of its last item. */
  lemma {:induction false} LastItemCounts(campaigns: Campaign, items: seq<AudienceItem>, k: nat)
    requires campaigns.Valid() && LastOf(items, k)
    ensures items[k].id in AudienceMap(campaigns, items)
    ensures AudienceMap(campaigns, items)[items[k].id] == Indices(campaigns, items[k].campaignIDs)
  {
    hide Indices;
    var front := items[..|items| - 1];
    if k < |front| {
      assert front[k] == items[k];
      LastItemCounts(campaigns, front, k);
    }
  }

  /** Nothing else is. */
  lemma {:induction false} OnlyScannedAudiences(campaigns: Campaign, items: seq<AudienceItem>, a: Id)
    requires campaigns.Valid() && a in AudienceMap(campaigns, items)
    ensures exists k: nat :: LastOf(items, k) && items[k].id == a
  {
    hide Indices;
    var n := |items| - 1;
    if a == items[n].id {
      assert LastOf(items, n);
    } else {
      OnlyScannedAudiences(campaigns, items[..n], a);
      var k: nat :| LastOf(items[..n], k) && items[..n][k].id == a;
      assert LastOf(items, k) && items[k].id == a;
    }
  }

  /** A scan that fails leaves no cache. */
  method NewAudience(items: seq<AudienceItem>, failed: bool, campaigns: Campaign)
    returns (cache: Option<map<Id, seq<nat>>>)
    requires campaigns.Valid()
    ensures cache.None? <==> failed
    ensures cache.Some? ==> cache.value == AudienceMap(campaigns, items)
  {
    var data := map[];
    for i := 0 to |items|
      invariant data == AudienceMap(campaigns, items[..i])
    {
      assert items[..i + 1][..i] == items[..i];
      var ids := items[i].campaignIDs;
      var indices := [];
      for j := 0 to |ids|
        invariant indices == Indices(campaigns, ids[..j])
      {
        assert ids[..j + 1][..j] == ids[..j];
        var idx := campaigns.GetIndex(ids[j]);
        if idx.Some? {
          indices := indices + [idx.value];
        }
      }
      assert ids[..|ids|] == ids;
      data := data[items[i].id := indices];
    }
    assert items[..|items|] == items;
    cache := if failed then None else Some(data);
  }

  /** No cached list leads outside the campaign cache. */
  lemma {:induction false} AudienceInRange(campaigns: Campaign, items: seq<AudienceItem>)
    requires campaigns.Valid()
    ensures Lookup.InRange(AudienceMap(campaigns, items), campaigns.Size())
  {
    if items != [] {
      AudienceInRange(campaigns, items[..|items| - 1]);
    }
  }

  lemma {:induction false} TargetedInRange(audiences: map<Id, seq<nat>>, size: nat, ids: seq<Id>)
    requires Lookup.InRange(audiences, size)
    ensures forall c <- Lookup.Targeted(audiences, ids) :: c < size
  {
    if ids != [] {
      TargetedInRange(audiences, size, ids[..|ids| - 1]);
    }
  }

  /** So what an auction looks up is in range and listed once, whatever audiences a device has. */
  lemma AuctionIndicesInRange(campaigns: Campaign, items: seq<AudienceItem>, ids: seq<Id>)
    requires campaigns.Valid()
    ensures var list := Lookup.Dedup(Lookup.Targeted(AudienceMap(campaigns, items), ids));
            Distinct(list) && forall c <- list :: c < campaigns.Size()
  {
    hide AudienceMap;
    var audiences := AudienceMap(campaigns, items);
    AudienceInRange(campaigns, items);
    TargetedInRange(audiences, campaigns.Size(), ids);
    Lookup.DedupMeaning(Lookup.Targeted(audiences, ids));
  }

  // Budgets

  /** The budget records of one campaign, added up. */
  function SumFor(items: seq<Budget>, id: Id): int {
    if items == [] then 0
    else
      var b := items[|items| - 1];
      SumFor(items[..|items| - 1], id) + if b.campaignID == id then b.available else 0
  }

  lemma {:induction false} SumForRemove(s: seq<Budget>, i: nat, id: Id)
    requires i < |s|
    ensures SumFor(s, id) == SumFor(s[..i] + s[i + 1..], id) + if s[i].campaignID == id then s[i].available else 0
  {
    var n := |s| - 1;
    if i < n {
      SumForRemove(s[..n], i, id);
      var rest := s[..i] + s[i + 1..];
      assert s[..n][..i] == s[..i] && s[..n][i + 1..] == s[i + 1..n];
      assert rest[..n - 1] == s[..i] + s[i + 1..n] && rest[n - 1] == s[n];
    } else {
      assert s[..i] + s[i + 1..] == s[..n];
    }
  }

  lemma {:induction false} SumForPermuted(s: seq<Budget>, t: seq<Budget>, id: Id)
    requires multiset(s) == multiset(t)
    ensures SumFor(s, id) == SumFor(t, id)
    decreases |s|
  {
    if s != [] {
      var i := RemoveLast(s, t);
      SumForPermuted(s[..|s| - 1], t[..i] + t[i + 1..], id);
      SumForRemove(t, i, id);
    }
  }

  /** What position i of the snapshot must hold: its campaign's sum, or nothing if its id leads elsewhere. */
  ghost predicate Scanned(campaigns: Campaign, items: seq<Budget>, available: seq<int>)
    requires campaigns.Valid()
    reads campaigns
  {
    && |available| == campaigns.Size()
    && forall i :: 0 <= i < |available| ==>
         available[i] == if campaigns.GetIndex(campaigns.data[i].id) == Some(i)
                         then SumFor(items, campaigns.data[i].id) else 0
  }

  lemma SumForSnoc(items: seq<Budget>, b: Budget, id: Id)
    ensures SumFor(items + [b], id) == SumFor(items, id) + if b.campaignID == id then b.available else 0
  {
    assert (items + [b])[..|items|] == items;
  }

  lemma NothingScanned(campaigns: Campaign)
    requires campaigns.Valid()
    ensures Scanned(campaigns, [], seq(campaigns.Size(), _ => 0))
  {}

  /** Budgets of unknown campaigns are skipped. */
  method ConsumeBudget(campaigns: Campaign, available: array<int>, budget: Budget, ghost items: seq<Budget>)
    requires campaigns.Valid() && Scanned(campaigns, items, available[..])
    modifies available
    ensures Scanned(campaigns, items + [budget], available[..])
  {
    hide SumFor;
    forall id: Id { SumForSnoc(items, budget, id); }
    var idx := campaigns.GetIndex(budget.campaignID);
    if idx.Some? {
      available[idx.value] := available[idx.value] + budget.available;
    }
  }

  /** A scan that fails installs nothing. */
  method ScanState(campaigns: Campaign, items: seq<Budget>, failed: bool) returns (state: Option<seq<int>>)
    requires campaigns.Valid()
    ensures state.None? <==> failed
    ensures state.Some? ==> Scanned(campaigns, items, state.value)
  {
    hide SumFor, Scanned;
    var n := campaigns.Size();
    var available := new int[n](_ => 0);
    NothingScanned(campaigns);
    assert available[..] == seq(n, _ => 0);
    for k := 0 to |items|
      invariant Scanned(campaigns, items[..k], available[..])
    {
      ConsumeBudget(campaigns, available, items[k], items[..k]);
      assert items[..k + 1] == items[..k] + [items[k]];
    }
    assert items[..|items|] == items;
    state := if failed then None else Some(available[..]);
  }

  /** Two scans of the same table agree, however their segments interleave. */
  lemma ScanOrderDoesNotMatter(campaigns: Campaign, segments: seq<seq<Budget>>, one: seq<Budget>, other: seq<Budget>,
                               a: seq<int>, b: seq<int>)
    requires campaigns.Valid() && Merges(segments, one) && Merges(segments, other)
    requires Scanned(campaigns, one, a) && Scanned(campaigns, other, b)
    ensures a == b && Scanned(campaigns, Flatten(segments), a)
  {
    hide SumFor, Merges;
    MergesAll(segments, one);
    MergesAll(segments, other);
    forall id: Id
      ensures SumFor(one, id) == SumFor(other, id) == SumFor(Flatten(segments), id)
    {
      SumForPermuted(one, Flatten(segments), id);
      SumForPermuted(other, Flatten(segments), id);
    }
  }

  // From the generator to an auction's budget

  lemma {:induction false} SumForOnce(items: seq<Budget>, k: nat)
    requires k < |items| && forall i, j :: 0 <= i < j < |items| ==> items[i].campaignID != items[j].campaignID
    ensures SumFor(items, items[k].campaignID) == items[k].available
  {
    var front := items[..|items| - 1];
    if k < |front| {
      SumForOnce(front, k);
    } else {
      SumForNone(front, items[k].campaignID);
    }
  }

  lemma {:induction false} SumForNone(items: seq<Budget>, id: Id)
    requires forall i :: 0 <= i < |items| ==> items[i].campaignID != id
    ensures SumFor(items, id) == 0
  {
    if items != [] {
      SumForNone(items[..|items| - 1], id);
    }
  }

  /**
   The generator's bytes, read back and scanned in any order, give each cached
   campaign exactly the amount drawn for its key.
   */
  lemma GeneratedBudgetArrives(cfg: BudgetCodec.Config, enc: BudgetCodec.Encryptor, draws: nat -> nat, key: nat,
                               campaigns: Campaign, i: nat, items: seq<Budget>, available: seq<int>)
    requires BudgetCodec.Resolved(cfg) && BudgetCodec.Injective(enc) && cfg.keyLow <= key <= cfg.keyHigh
    requires campaigns.Valid() && campaigns.GetIndex(BudgetCodec.Encrypt(enc, key)) == Some(i)
    requires Scanned(campaigns, items, available)
    ensures var records := BudgetCodec.Generated(cfg, enc, draws);
            && (forall r <- records :: BudgetCodec.Whole(|r.batch|))
            && (multiset(items) == multiset(BudgetCodec.DecodeRecords(records)) ==>
                  available[i] == BudgetCodec.BudgetOf(cfg, enc, draws, key).available)
  {
    hide SumFor, BudgetCodec.Numbered, BudgetCodec.Chunks, BudgetCodec.DecodeRecords, BudgetCodec.BudgetOf;
    BudgetCodec.BudgetPipelineRoundTrip(cfg, enc, draws);
    var read := BudgetCodec.DecodeRecords(BudgetCodec.Generated(cfg, enc, draws));
    if multiset(items) == multiset(read) {
      SumForPermuted(items, read, BudgetCodec.Encrypt(enc, key));
      BudgetIds(cfg, enc, draws, key);
      SumForOnce(read, key - cfg.keyLow);
    }
  }

  lemma BudgetIds(cfg: BudgetCodec.Config, enc: BudgetCodec.Encryptor, draws: nat -> nat, key: nat)
    requires BudgetCodec.Resolved(cfg)
    ensures BudgetCodec.BudgetOf(cfg, enc, draws, key).campaignID == BudgetCodec.Encrypt(enc, key)
  {}
}
