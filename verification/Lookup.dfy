/** The stamped lookup table that removes duplicate campaigns, reused and never cleared. */
module Lookup {
  import opened Bytes

  type Id = seq<byte>

  // What deduplication means

  /** First occurrences, in order. */
  function Dedup(s: seq<nat>): seq<nat> {
    if s == [] then []
    else
      var front, x := s[..|s| - 1], s[|s| - 1];
      if x in front then Dedup(front) else Dedup(front) + [x]
  }

  ghost predicate FirstAt(s: seq<nat>, x: nat, i: nat) {
    i < |s| && s[i] == x && x !in s[..i]
  }

  /** The same campaigns, each once, ordered by where each is first listed. */
  lemma {:induction false} DedupMeaning(s: seq<nat>)
    ensures Distinct(Dedup(s))
    ensures forall x :: x in Dedup(s) <==> x in s
    ensures forall a: nat, b: nat, i: nat, j: nat ::
              a < b < |Dedup(s)| && FirstAt(s, Dedup(s)[a], i) && FirstAt(s, Dedup(s)[b], j) ==> i < j
  {
    if s != [] {
      var front, x := s[..|s| - 1], s[|s| - 1];
      assert s == front + [x];
      DedupMeaning(front);
      var d := Dedup(front);
      forall a: nat, b: nat, i: nat, j: nat |
        a < b < |Dedup(s)| && FirstAt(s, Dedup(s)[a], i) && FirstAt(s, Dedup(s)[b], j)
        ensures i < j
      {
        assert Dedup(s)[a] == d[a] && d[a] in front;
        FirstInFront(front, x, d[a], i);
        if b < |d| {
          assert d[b] in front;
          FirstInFront(front, x, d[b], j);
        } else {
          assert j == |front|;
        }
      }
    }
  }

  lemma FirstInFront(front: seq<nat>, x: nat, y: nat, i: nat)
    requires y in front && FirstAt(front + [x], y, i)
    ensures FirstAt(front, y, i)
  {
    assert (front + [x])[..i] == front[..i];
  }

  // The table

  class CampaignLookup {
    var lookup: array<int>
    var runID: int

    ghost predicate Valid()
      reads this, lookup
    {
      runID >= 0 && forall c :: 0 <= c < lookup.Length ==> lookup[c] <= runID
    }

    constructor ()
      ensures Valid() && fresh(lookup) && runID == 0 && lookup.Length == 0
    {
      lookup := new int[0];
      runID := 0;
    }
  }

  /** Tables rest in the pool as their last run left them. */
  class LookupPool {
    var free: set<CampaignLookup>

    ghost predicate Valid()
      reads this, free, set l <- free :: l.lookup
    {
      && (forall l <- free :: l.Valid())
      && (forall l <- free, m <- free :: l != m ==> l.lookup != m.lookup)
    }

    constructor ()
      ensures Valid() && free == {}
    {
      free := {};
    }

    method Get() returns (l: CampaignLookup)
      requires Valid()
      modifies this
      ensures Valid() && l.Valid() && l !in free
      ensures forall m <- free :: m.lookup != l.lookup
      ensures free == old(free) - {l} && (l in old(free) || (fresh(l) && fresh(l.lookup)))
      ensures l in old(free) ==> l.lookup == old(l.lookup)
    {
      var reuse: bool := *;
      if reuse && free != {} {
        l :| l in free;
        free := free - {l};
      } else {
        l := new CampaignLookup();
      }
    }

    method Put(l: CampaignLookup)
      requires Valid() && l.Valid() && l !in free && forall m <- free :: m.lookup != l.lookup
      modifies this
      ensures Valid() && free == old(free) + {l}
    {
      free := free + {l};
    }
  }

  function ListOf(audiences: map<Id, seq<nat>>, id: Id): seq<nat> {
    if id in audiences then audiences[id] else []
  }

  /** Every campaign the audiences target, repetitions included. */
  function Targeted(audiences: map<Id, seq<nat>>, ids: seq<Id>): seq<nat> {
    if ids == [] then [] else Targeted(audiences, ids[..|ids| - 1]) + ListOf(audiences, ids[|ids| - 1])
  }

  /** A campaign is targeted exactly when some listed audience names it. */
  lemma {:induction false} TargetedMeaning(audiences: map<Id, seq<nat>>, ids: seq<Id>, c: nat)
    ensures c in Targeted(audiences, ids) <==> exists id <- ids :: id in audiences && c in audiences[id]
  {
    if ids != [] {
      var front, last := ids[..|ids| - 1], ids[|ids| - 1];
      assert ids == front + [last];
      TargetedMeaning(audiences, front, c);
      assert (exists id <- ids :: id in audiences && c in audiences[id])
             <==> (exists id <- front :: id in audiences && c in audiences[id])
                  || (last in audiences && c in audiences[last]);
    }
  }

  /** The audiences' lists one after the other, each whole and in its own order; an unknown audience adds nothing. */
  lemma {:induction false} TargetedInOrder(audiences: map<Id, seq<nat>>, a: seq<Id>, b: seq<Id>, id: Id)
    ensures Targeted(audiences, a + b) == Targeted(audiences, a) + Targeted(audiences, b)
    ensures Targeted(audiences, [id]) == if id in audiences then audiences[id] else []
  {
    assert [id][..0] == [];
    if b == [] {
      assert a + b == a;
    } else {
      var front := b[..|b| - 1];
      TargetedInOrder(audiences, a, front, id);
      assert (a + b)[..|a + b| - 1] == a + front;
    }
  }

  ghost predicate InRange(audiences: map<Id, seq<nat>>, size: nat) {
    forall id <- audiences, c <- audiences[id] :: c < size
  }

  /** The stamps of this run mark exactly the campaigns seen, and no stamp is ahead of it. */
  ghost predicate Stamped(stamps: seq<int>, runID: int, seen: seq<nat>) {
    && (forall c :: 0 <= c < |stamps| ==> stamps[c] <= runID)
    && (forall c :: 0 <= c < |stamps| ==> (stamps[c] == runID <==> c in seen))
  }

  lemma DedupSnoc(seen: seq<nat>, c: nat)
    ensures Dedup(seen + [c]) == if c in seen then Dedup(seen) else Dedup(seen) + [c]
  {
    assert (seen + [c])[..|seen|] == seen;
  }

  lemma StampedSnoc(stamps: seq<int>, runID: int, seen: seq<nat>, c: nat)
    requires Stamped(stamps, runID, seen) && c < |stamps|
    ensures stamps[c] == runID <==> c in seen
    ensures Stamped(stamps[c := runID], runID, seen + [c])
    ensures c in seen ==> stamps[c := runID] == stamps
  {}

  /** Adds one audience's campaigns to what was seen. */
  method AddCampaigns(l: CampaignLookup, list: seq<nat>, indices: seq<nat>, ghost seen: seq<nat>)
    returns (out: seq<nat>)
    requires forall c <- list :: c < l.lookup.Length
    requires indices == Dedup(seen) && Stamped(l.lookup[..], l.runID, seen)
    modifies l.lookup
    ensures out == Dedup(seen + list) && Stamped(l.lookup[..], l.runID, seen + list)
  {
    hide Stamped, Dedup;
    out := indices;
    var j := 0;
    assert seen + list[..0] == seen;
    while j < |list|
      invariant j <= |list|
      invariant out == Dedup(seen + list[..j]) && Stamped(l.lookup[..], l.runID, seen + list[..j])
    {
      var c := list[j];
      assert c in list;
      ghost var before := seen + list[..j];
      DedupSnoc(before, c);
      StampedSnoc(l.lookup[..], l.runID, before, c);
      assert seen + list[..j + 1] == before + [c];
      assert l.lookup[..][c] == l.lookup[c];
      if l.lookup[c] != l.runID {
        out := out + [c];
        l.lookup[c] := l.runID;
      }
      j := j + 1;
    }
    assert list[..j] == list;
  }

  /**
   Whatever table the pool hands out, the result is the deduplicated list, and
   the table goes back fit for the next run.
   */
  method GetAudienceCampaigns(pool: LookupPool, audiences: map<Id, seq<nat>>, size: nat, ids: seq<Id>)
    returns (indices: seq<nat>)
    requires pool.Valid() && InRange(audiences, size)
    modifies pool, pool.free, set l <- pool.free :: l.lookup
    ensures pool.Valid()
    ensures indices == Dedup(Targeted(audiences, ids))
    ensures Distinct(indices)
    ensures forall c: nat :: c in indices <==> exists id <- ids :: id in audiences && c in audiences[id]
  {
    hide Dedup, Targeted, Distinct;
    var l := pool.Get();
    indices := Run(l, audiences, size, ids);
    pool.Put(l);
    DedupMeaning(Targeted(audiences, ids));
    forall c: nat { TargetedMeaning(audiences, ids, c); }
  }

  method Run(l: CampaignLookup, audiences: map<Id, seq<nat>>, size: nat, ids: seq<Id>) returns (indices: seq<nat>)
    requires l.Valid() && InRange(audiences, size)
    modifies l, l.lookup
    ensures l.Valid() && (l.lookup == old(l.lookup) || fresh(l.lookup))
    ensures indices == Dedup(Targeted(audiences, ids))
  {
    hide Dedup, Targeted, Stamped;
    l.runID := l.runID + 1;
    if l.lookup.Length < size {
      l.lookup := new int[size](_ => 0);
    }
    indices := [];
    RunStarts(audiences, l.lookup[..], l.runID);
    var i := 0;
    while i < |ids|
      invariant i <= |ids|
      invariant l.runID == old(l.runID) + 1 && l.lookup.Length >= size
      invariant l.lookup == old(l.lookup) || fresh(l.lookup)
      invariant indices == Dedup(Targeted(audiences, ids[..i]))
      invariant Stamped(l.lookup[..], l.runID, Targeted(audiences, ids[..i]))
    {
      NextAudience(audiences, ids, i);
      assert forall c <- ListOf(audiences, ids[i]) :: c < size;
      indices := AddCampaigns(l, ListOf(audiences, ids[i]), indices, Targeted(audiences, ids[..i]));
      i := i + 1;
    }
    assert ids[..i] == ids;
    RunEnds(l.lookup[..], l.runID, Targeted(audiences, ids));
    assert forall c :: 0 <= c < l.lookup.Length ==> l.lookup[c] == l.lookup[..][c];
  }

  lemma NextAudience(audiences: map<Id, seq<nat>>, ids: seq<Id>, i: nat)
    requires i < |ids|
    ensures Targeted(audiences, ids[..i + 1]) == Targeted(audiences, ids[..i]) + ListOf(audiences, ids[i])
  {
    assert ids[..i + 1][..i] == ids[..i];
  }

  lemma RunStarts(audiences: map<Id, seq<nat>>, stamps: seq<int>, runID: int)
    requires forall c :: 0 <= c < |stamps| ==> stamps[c] < runID
    ensures Dedup(Targeted(audiences, [])) == [] && Stamped(stamps, runID, Targeted(audiences, []))
  {}

  lemma RunEnds(stamps: seq<int>, runID: int, seen: seq<nat>)
    requires Stamped(stamps, runID, seen)
    ensures forall c :: 0 <= c < |stamps| ==> stamps[c] <= runID
  {}
}
