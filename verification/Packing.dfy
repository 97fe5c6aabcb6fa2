/**
 The two greedy packers as functions. `NextFit` grows the packing message by
 message, as the batch counts it; `Greedy` cuts maximal groups off the front, as
 the compiler does. On fitting messages they agree, and a size limit on the whole
 request bounds the number of groups.
 */
module Packing {
  import opened Bytes
  import opened Sizes

  type Group = seq<Message>

  // The batch's view

  function Place(gs: seq<Group>, m: Message): seq<Group> {
    if gs == [] then [[m]]
    else
      var last := gs[|gs| - 1];
      if SizeOf(m) + ENTRY_METADATA_SIZE + TotalSize(last) > MAX_ENTRY_SIZE then gs + [[m]]
      else gs[..|gs| - 1] + [last + [m]]
  }

  function NextFit(ms: seq<Message>): (gs: seq<Group>)
    ensures ms != [] ==> gs != []
  {
    if ms == [] then [] else Place(NextFit(ms[..|ms| - 1]), ms[|ms| - 1])
  }

  /** Data and partition-key bytes of a request that sends `ms`. */
  function RequestBytes(ms: seq<Message>): nat {
    |NextFit(ms)| * ENTRY_TOTAL_METADATA_SIZE + TotalSize(ms)
  }

  // The compiler's view

  function GreedyLen(ms: seq<Message>, used: nat): (n: nat)
    ensures n <= |ms|
  {
    if ms == [] || SizeOf(ms[0]) + used > MAX_ENTRY_SIZE then 0
    else 1 + GreedyLen(ms[1..], used + SizeOf(ms[0]))
  }

  function Greedy(ms: seq<Message>): seq<Group>
    requires AllFit(ms)
  {
    if ms == [] then []
    else
      assert Fits(ms[0]);
      var n := GreedyLen(ms, ENTRY_METADATA_SIZE);
      [ms[..n]] + Greedy(ms[n..])
  }

  // What a packing is

  ghost predicate ValidPacking(gs: seq<Group>, ms: seq<Message>) {
    && Flatten(gs) == ms
    && (forall g <- gs :: g != [] && ENTRY_METADATA_SIZE + TotalSize(g) <= MAX_ENTRY_SIZE)
  }

  /** No two neighbours could have shared one entry. */
  ghost predicate Tight(gs: seq<Group>) {
    forall i :: 0 <= i < |gs| - 1 ==>
      TotalSize(gs[i]) + TotalSize(gs[i + 1]) > MAX_ENTRY_SIZE - ENTRY_METADATA_SIZE
  }

  lemma NextFitSnoc(ms: seq<Message>, m: Message)
    ensures NextFit(ms + [m]) == Place(NextFit(ms), m)
  {
    assert (ms + [m])[..|ms|] == ms;
  }

  lemma SplitLast(gs: seq<Group>)
    requires gs != []
    ensures Flatten(gs) == Flatten(gs[..|gs| - 1]) + gs[|gs| - 1]
  {
    FlattenSnoc(gs[..|gs| - 1], gs[|gs| - 1]);
    assert gs == gs[..|gs| - 1] + [gs[|gs| - 1]];
  }

  lemma PlaceFlattens(gs: seq<Group>, m: Message)
    ensures Flatten(Place(gs, m)) == Flatten(gs) + [m]
  {
    if gs == [] {
      assert [[m]] == [] + [[m]];
      FlattenSnoc([], [m]);
    } else {
      var k := |gs| - 1;
      SplitLast(gs);
      FlattenSnoc(gs, [m]);
      FlattenSnoc(gs[..k], gs[k] + [m]);
    }
  }

  lemma PlaceKeeps(gs: seq<Group>, ms: seq<Message>, m: Message)
    requires ValidPacking(gs, ms) && Tight(gs) && Fits(m)
    ensures ValidPacking(Place(gs, m), ms + [m]) && Tight(Place(gs, m))
  {
    hide Flatten, SizeOf;
    PlaceFlattens(gs, m);
    TotalSizeSnoc([], m);
    assert [] + [m] == [m];
    if gs != [] {
      TotalSizeSnoc(gs[|gs| - 1], m);
    }
  }

  /** The batch's packing keeps the messages in order, within the entry limit, and tight. */
  lemma {:induction false} NextFitPacks(ms: seq<Message>)
    requires AllFit(ms)
    ensures ValidPacking(NextFit(ms), ms) && Tight(NextFit(ms))
  {
    if ms != [] {
      var front := ms[..|ms| - 1];
      NextFitPacks(front);
      PlaceKeeps(NextFit(front), front, ms[|ms| - 1]);
      assert ms == front + [ms[|ms| - 1]];
    }
  }

  // Agreement of the two packers

  lemma {:induction false} GreedyLenSnoc(ms: seq<Message>, m: Message, used: nat)
    ensures GreedyLen(ms + [m], used) ==
            var n := GreedyLen(ms, used);
            if n < |ms| then n
            else if SizeOf(m) + used + TotalSize(ms) > MAX_ENTRY_SIZE then n
            else n + 1
  {
    var all := ms + [m];
    if ms == [] {
      assert all[1..] == [];
    } else if SizeOf(ms[0]) + used <= MAX_ENTRY_SIZE {
      assert all[1..] == ms[1..] + [m];
      GreedyLenSnoc(ms[1..], m, used + SizeOf(ms[0]));
    }
  }

  lemma GreedyCut(ms: seq<Message>)
    requires AllFit(ms) && ms != []
    ensures var k := GreedyLen(ms, ENTRY_METADATA_SIZE);
            0 < k && Greedy(ms) == [ms[..k]] + Greedy(ms[k..])
  {
    assert Fits(ms[0]);
  }

  lemma GreedySingle(ms: seq<Message>)
    requires AllFit(ms) && ms != [] && GreedyLen(ms, ENTRY_METADATA_SIZE) == |ms|
    ensures Greedy(ms) == [ms]
  {
    GreedyCut(ms);
    assert ms[..|ms|] == ms && ms[|ms|..] == [];
  }

  lemma GreedyOne(m: Message)
    requires Fits(m)
    ensures Greedy([m]) == [[m]]
  {
    assert [m][..1] == [m] && [m][1..] == [];
    assert Greedy([m]) == [[m]] + Greedy([]);
  }

  lemma PlaceAfter(g: Group, gs: seq<Group>, m: Message)
    requires gs != []
    ensures Place([g] + gs, m) == [g] + Place(gs, m)
  {
    assert ([g] + gs)[..|gs|] == [g] + gs[..|gs| - 1];
  }

  lemma {:induction false} GreedySnoc(ms: seq<Message>, m: Message)
    requires AllFit(ms + [m]) && AllFit(ms)
    ensures Greedy(ms + [m]) == Place(Greedy(ms), m)
    decreases |ms|
  {
    hide Greedy, GreedyLen, TotalSize;
    var all := ms + [m];
    assert Fits(m) by { assert all[|ms|] == m; }
    if ms == [] {
      assert all == [m];
      GreedyOne(m);
      GreedyNone();
    } else {
      var k := GreedyLen(ms, ENTRY_METADATA_SIZE);
      GreedyLenSnoc(ms, m, ENTRY_METADATA_SIZE);
      GreedyCut(ms);
      GreedyCut(all);
      if k < |ms| {
        assert all[..k] == ms[..k] && all[k..] == ms[k..] + [m];
        GreedySnoc(ms[k..], m);
        GreedyCut(ms[k..]);
        PlaceAfter(ms[..k], Greedy(ms[k..]), m);
      } else {
        GreedySingle(ms);
        if GreedyLen(all, ENTRY_METADATA_SIZE) == k {
          assert all[..k] == ms && all[k..] == [m];
          GreedyOne(m);
        } else {
          GreedySingle(all);
        }
      }
    }
  }

  lemma GreedyNone()
    ensures Greedy([]) == []
  {}

  /** The compiler recomputes exactly the groups the batch counted. */
  lemma {:induction false} PackersAgree(ms: seq<Message>)
    requires AllFit(ms)
    ensures Greedy(ms) == NextFit(ms)
  {
    hide TotalSize, GreedyLen, SizeOf;
    if ms != [] {
      var front := ms[..|ms| - 1];
      PackersAgree(front);
      assert ms == front + [ms[|ms| - 1]];
      GreedySnoc(front, ms[|ms| - 1]);
    }
  }

  // The entry-count bound

  ghost function Load(gs: seq<Group>): nat {
    if gs == [] then 0 else TotalSize(gs[0]) + Load(gs[1..])
  }

  lemma {:induction false} LoadIsTotal(gs: seq<Group>)
    ensures Load(gs) == TotalSize(Flatten(gs))
  {
    if gs != [] {
      LoadIsTotal(gs[1..]);
      TotalSizeAppend(gs[0], Flatten(gs[1..]));
    }
  }

  /** Any two neighbouring entries hold at least this many message bytes. */
  const PAIR_LOAD: nat := MAX_ENTRY_SIZE - ENTRY_METADATA_SIZE + 1

  lemma {:induction false} TightLoad(gs: seq<Group>)
    requires Tight(gs)
    ensures Load(gs) >= |gs| / 2 * PAIR_LOAD
    decreases |gs|
  {
    if |gs| >= 2 {
      var rest := gs[2..];
      forall i | 0 <= i < |rest| - 1
        ensures TotalSize(rest[i]) + TotalSize(rest[i + 1]) > MAX_ENTRY_SIZE - ENTRY_METADATA_SIZE
      {
        assert rest[i] == gs[i + 2] && rest[i + 1] == gs[i + 3];
      }
      TightLoad(rest);
      assert gs[1..][1..] == rest;
    }
  }

  const MAX_REACHABLE_ENTRIES := 205

  /** A packing whose request fits the size limit has at most 205 entries. */
  lemma EntryCountBound(ms: seq<Message>)
    requires AllFit(ms) && RequestBytes(ms) <= MAX_REQUEST_SIZE
    ensures |NextFit(ms)| <= MAX_REACHABLE_ENTRIES
  {
    hide NextFit, TotalSize, Load, Flatten;
    NextFitPacks(ms);
    TightLoad(NextFit(ms));
    LoadIsTotal(NextFit(ms));
  }

  /** Alternating tiny and nearly full messages: every message opens an entry. */
  function Alternating(k: nat): (ms: seq<Message>)
    ensures |ms| == k
  {
    if k == 0 then []
    else
      var body := if k % 2 == 1 then [] else seq(51136, _ => 0);
      Alternating(k - 1) + [Message(k, k, body)]
  }

  lemma AlternatingPlace(gs: seq<Group>, last: Message, m: Message)
    requires gs != [] && gs[|gs| - 1] == [last]
    requires SizeOf(last) + SizeOf(m) == PAIR_LOAD
    ensures Place(gs, m) == gs + [[m]]
  {
    TotalSizeSnoc([], last);
    assert [] + [last] == [last];
  }

  lemma AlternatingPair(k: nat)
    requires k >= 2
    ensures Alternating(k)[k - 2] == Alternating(k - 1)[k - 2]
    ensures SizeOf(Alternating(k)[k - 2]) + SizeOf(Alternating(k)[k - 1]) == PAIR_LOAD
  {
    assert Alternating(k - 1)[k - 2].body == if k % 2 == 0 then [] else seq(51136, _ => 0);
  }

  lemma {:induction false} AlternatingSizes(k: nat)
    ensures AllFit(Alternating(k))
    ensures TotalSize(Alternating(k)) == k / 2 * 51152 + k % 2 * 6
  {
    if k > 0 {
      AlternatingSizes(k - 1);
      TotalSizeSnoc(Alternating(k - 1), Alternating(k)[k - 1]);
    }
  }

  lemma {:induction false} AlternatingPacking(k: nat)
    ensures |NextFit(Alternating(k))| == k
    ensures k > 0 ==> NextFit(Alternating(k))[k - 1] == [Alternating(k)[k - 1]]
  {
    if k > 0 {
      var front, m := Alternating(k - 1), Alternating(k)[k - 1];
      AlternatingPacking(k - 1);
      assert NextFit(Alternating(k)) == Place(NextFit(front), m) by {
        assert Alternating(k) == front + [m];
        NextFitSnoc(front, m);
      }
      if k > 1 {
        AlternatingPair(k);
        AlternatingPlace(NextFit(front), front[k - 2], m);
      }
    }
  }

  /** The bound is attained. */
  lemma EntryCountBoundTight()
    ensures exists ms :: AllFit(ms) && RequestBytes(ms) <= MAX_REQUEST_SIZE
                         && |NextFit(ms)| == MAX_REACHABLE_ENTRIES
  {
    hide Alternating, NextFit, TotalSize;
    AlternatingPacking(205);
    AlternatingSizes(205);
    var ms := Alternating(205);
    assert AllFit(ms) && RequestBytes(ms) <= MAX_REQUEST_SIZE;
  }

  lemma PlaceGrows(gs: seq<Group>, m: Message)
    ensures |gs| <= |Place(gs, m)| <= |gs| + 1
  {}

  lemma RequestBytesSnoc(ms: seq<Message>, m: Message)
    ensures RequestBytes(ms) < RequestBytes(ms + [m])
  {
    var before, after := NextFit(ms), NextFit(ms + [m]);
    assert |before| <= |after| by {
      NextFitSnoc(ms, m);
      PlaceGrows(before, m);
    }
    TotalSizeSnoc(ms, m);
    assert |before| * ENTRY_TOTAL_METADATA_SIZE <= |after| * ENTRY_TOTAL_METADATA_SIZE;
  }
}
