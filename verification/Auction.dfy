/** One auction on one budget snapshot, run alone. */
module Auction {
  import opened Bytes

  class BudgetState {
    const available: array<int>

    constructor (initial: seq<int>)
      ensures fresh(available) && available[..] == initial
    {
      available := new int[|initial|](i requires 0 <= i < |initial| => initial[i]);
    }

    /** Takes the value off, whatever is left, and says whether the campaign could afford it. */
    method Reserve(campaignIndex: nat, value: int) returns (budgetLeft: bool)
      requires campaignIndex < available.Length
      modifies available
      ensures available[..] == old(available[..])[campaignIndex := old(available[campaignIndex]) - value]
      ensures budgetLeft <==> value <= old(available[campaignIndex])
    {
      available[campaignIndex] := available[campaignIndex] - value;
      budgetLeft := available[campaignIndex] >= 0;
    }

    method Free(campaignIndex: nat, value: int)
      requires campaignIndex < available.Length
      modifies available
      ensures available[..] == old(available[..])[campaignIndex := old(available[campaignIndex]) + value]
    {
      available[campaignIndex] := available[campaignIndex] + value;
    }
  }

  // Who may win

  /** The campaign can pay its price, and the price is not below the starting bid of zero. */
  predicate Eligible(budget: seq<int>, cpms: seq<int>, c: nat)
    requires |budget| == |cpms|
  {
    c < |budget| && 0 <= cpms[c] <= budget[c]
  }

  /** A campaign of the list that may win, with a price no other one exceeds. */
  ghost predicate Best(budget: seq<int>, cpms: seq<int>, list: seq<nat>, c: nat)
    requires |budget| == |cpms|
  {
    && c in list && Eligible(budget, cpms, c)
    && forall d <- list :: Eligible(budget, cpms, d) ==> cpms[d] <= cpms[c]
  }

  /** The list's eligible campaigns of one price, in order. */
  function AtPrice(budget: seq<int>, cpms: seq<int>, list: seq<nat>, price: int): seq<nat>
    requires |budget| == |cpms|
  {
    if list == [] then []
    else
      var front, c := list[..|list| - 1], list[|list| - 1];
      AtPrice(budget, cpms, front, price)
      + if Eligible(budget, cpms, c) && cpms[c] == price then [c] else []
  }

  /** The highest eligible price, zero if there is none. */
  function TopPrice(budget: seq<int>, cpms: seq<int>, list: seq<nat>): (p: int)
    requires |budget| == |cpms|
    ensures p >= 0
  {
    if list == [] then 0
    else
      var p, c := TopPrice(budget, cpms, list[..|list| - 1]), list[|list| - 1];
      if Eligible(budget, cpms, c) && cpms[c] > p then cpms[c] else p
  }

  function Winners(budget: seq<int>, cpms: seq<int>, list: seq<nat>): seq<nat>
    requires |budget| == |cpms|
  {
    AtPrice(budget, cpms, list, TopPrice(budget, cpms, list))
  }

  lemma {:induction false} AtPriceMeaning(budget: seq<int>, cpms: seq<int>, list: seq<nat>, price: int)
    requires |budget| == |cpms|
    ensures forall c :: c in AtPrice(budget, cpms, list, price)
                        <==> c in list && Eligible(budget, cpms, c) && cpms[c] == price
  {
    if list != [] {
      var front, c := list[..|list| - 1], list[|list| - 1];
      AtPriceMeaning(budget, cpms, front, price);
      assert list == front + [c];
    }
  }

  /** Each as often as it is listed, and in the order of the list. */
  lemma {:induction false} AtPriceCounts(budget: seq<int>, cpms: seq<int>, list: seq<nat>, price: int, c: nat)
    requires |budget| == |cpms|
    ensures multiset(AtPrice(budget, cpms, list, price))[c]
            == if Eligible(budget, cpms, c) && cpms[c] == price then multiset(list)[c] else 0
  {
    if list != [] {
      var front, d := list[..|list| - 1], list[|list| - 1];
      AtPriceCounts(budget, cpms, front, price, c);
      var kept := if Eligible(budget, cpms, d) && cpms[d] == price then [d] else [];
      assert AtPrice(budget, cpms, list, price) == AtPrice(budget, cpms, front, price) + kept;
      assert list == front + [d];
      hide AtPrice;
      CountAppend(front, [d], c);
      CountAppend(AtPrice(budget, cpms, front, price), kept, c);
    }
  }

  lemma CountAppend(a: seq<nat>, b: seq<nat>, c: nat)
    ensures multiset(a + b)[c] == multiset(a)[c] + multiset(b)[c]
  {}

  lemma {:induction false} AtPriceInOrder(budget: seq<int>, cpms: seq<int>, a: seq<nat>, b: seq<nat>, price: int)
    requires |budget| == |cpms|
    ensures AtPrice(budget, cpms, a + b, price) == AtPrice(budget, cpms, a, price) + AtPrice(budget, cpms, b, price)
  {
    if b == [] {
      assert a + b == a;
    } else {
      var front, d := b[..|b| - 1], b[|b| - 1];
      AtPriceInOrder(budget, cpms, a, front, price);
      assert (a + b)[..|a + b| - 1] == a + front && (a + b)[|a + b| - 1] == d;
      Rebracket(AtPrice(budget, cpms, a, price), AtPrice(budget, cpms, front, price),
                if Eligible(budget, cpms, d) && cpms[d] == price then [d] else []);
    }
  }

  lemma {:induction false} TopPriceMeaning(budget: seq<int>, cpms: seq<int>, list: seq<nat>)
    requires |budget| == |cpms|
    ensures forall c <- list :: Eligible(budget, cpms, c) ==> cpms[c] <= TopPrice(budget, cpms, list)
    ensures TopPrice(budget, cpms, list) > 0 ==>
              exists c <- list :: Eligible(budget, cpms, c) && cpms[c] == TopPrice(budget, cpms, list)
  {
    if list != [] {
      var front, c := list[..|list| - 1], list[|list| - 1];
      TopPriceMeaning(budget, cpms, front);
      assert list == front + [c] && c in list;
      if TopPrice(budget, cpms, front) > 0 {
        var d :| d in front && Eligible(budget, cpms, d) && cpms[d] == TopPrice(budget, cpms, front);
        assert d in list;
      }
    }
  }

  /** The winners are exactly the best campaigns; there are none exactly when nobody is eligible. */
  lemma WinnersAreBest(budget: seq<int>, cpms: seq<int>, list: seq<nat>)
    requires |budget| == |cpms|
    ensures forall c: nat :: c in Winners(budget, cpms, list) <==> Best(budget, cpms, list, c)
    ensures Winners(budget, cpms, list) == [] <==> forall c <- list :: !Eligible(budget, cpms, c)
  {
    var p, winners := TopPrice(budget, cpms, list), Winners(budget, cpms, list);
    AtPriceMeaning(budget, cpms, list, p);
    TopPriceMeaning(budget, cpms, list);
    forall c <- list | Eligible(budget, cpms, c)
      ensures exists d <- list :: Eligible(budget, cpms, d) && cpms[d] == p
    {
      assert p == 0 ==> cpms[c] == p;
    }
    assert winners != [] ==> winners[0] in winners;
  }

  // The loops

  /** Budgets after every campaign of the list paid `sign` times its price. */
  ghost predicate Paid(before: seq<int>, after: seq<int>, cpms: seq<int>, paid: set<nat>) {
    && |before| == |after| == |cpms|
    && forall c :: 0 <= c < |before| ==> after[c] == before[c] - if c in paid then cpms[c] else 0
  }

  ghost function Members(list: seq<nat>): set<nat> { set c | c in list }

  lemma AtPriceSnoc(budget: seq<int>, cpms: seq<int>, front: seq<nat>, c: nat, price: int)
    requires |budget| == |cpms|
    ensures AtPrice(budget, cpms, front + [c], price)
            == AtPrice(budget, cpms, front, price)
               + if Eligible(budget, cpms, c) && cpms[c] == price then [c] else []
    ensures TopPrice(budget, cpms, front + [c])
            == if Eligible(budget, cpms, c) && cpms[c] > TopPrice(budget, cpms, front) then cpms[c]
               else TopPrice(budget, cpms, front)
  {
    assert (front + [c])[..|front|] == front;
  }

  lemma {:induction false} NothingAbove(budget: seq<int>, cpms: seq<int>, list: seq<nat>, price: int)
    requires |budget| == |cpms| && price > TopPrice(budget, cpms, list)
    ensures AtPrice(budget, cpms, list, price) == []
  {
    if list != [] {
      NothingAbove(budget, cpms, list[..|list| - 1], price);
    }
  }

  /** How one campaign's reservation changes the leading price and the candidates. */
  lemma WinnersSnoc(budget: seq<int>, cpms: seq<int>, front: seq<nat>, c: nat)
    requires |budget| == |cpms| && c < |cpms|
    ensures var top, now := TopPrice(budget, cpms, front), Winners(budget, cpms, front);
            Winners(budget, cpms, front + [c])
            == if cpms[c] > budget[c] || cpms[c] < top then now
               else if cpms[c] > top then [c]
               else now + [c]
  {
    var top := TopPrice(budget, cpms, front);
    AtPriceSnoc(budget, cpms, front, c, top);
    if cpms[c] > top {
      AtPriceSnoc(budget, cpms, front, c, cpms[c]);
      NothingAbove(budget, cpms, front, cpms[c]);
    }
  }

  /** Where the loop stands after the campaigns of `front`. */
  ghost predicate Leading(before: seq<int>, cpms: seq<int>, front: seq<nat>, top: int, winners: seq<nat>)
    requires |before| == |cpms|
  {
    top == TopPrice(before, cpms, front) && winners == Winners(before, cpms, front)
  }

  lemma PaidMore(before: seq<int>, after: seq<int>, cpms: seq<int>, front: seq<nat>, c: nat)
    requires Paid(before, after, cpms, Members(front)) && c < |cpms| && c !in front
    ensures after[c] == before[c]
    ensures Paid(before, after[c := after[c] - cpms[c]], cpms, Members(front + [c]))
  {}

  /** One turn of the reservation loop. */
  method ReserveOne(state: BudgetState, cpms: seq<int>, c: nat, top: int, candidates: seq<nat>,
                    ghost before: seq<int>, ghost front: seq<nat>)
    returns (winningCPM: int, winners: seq<nat>)
    requires |cpms| == state.available.Length && c < |cpms| && c !in front
    requires Paid(before, state.available[..], cpms, Members(front)) && Leading(before, cpms, front, top, candidates)
    modifies state.available
    ensures Paid(before, state.available[..], cpms, Members(front + [c]))
    ensures Leading(before, cpms, front + [c], winningCPM, winners)
  {
    hide TopPrice, Winners, AtPrice;
    PaidMore(before, state.available[..], cpms, front, c);
    WinnersSnoc(before, cpms, front, c);
    AtPriceSnoc(before, cpms, front, c, top);
    assert state.available[c] == state.available[..][c];
    winningCPM, winners := top, candidates;
    var campaignCPM := cpms[c];
    var budgetLeft := state.Reserve(c, campaignCPM);
    if budgetLeft {
      if campaignCPM > winningCPM {
        winningCPM := campaignCPM;
        winners := [];
      }
      if campaignCPM == winningCPM {
        winners := winners + [c];
      }
    }
  }

  /** Reserves every campaign of the list, collecting the affordable ones of the highest price. */
  method ReserveAll(state: BudgetState, cpms: seq<int>, list: seq<nat>) returns (winners: seq<nat>)
    requires |cpms| == state.available.Length && Distinct(list)
    requires forall c <- list :: c < |cpms|
    modifies state.available
    ensures winners == Winners(old(state.available[..]), cpms, list)
    ensures Paid(old(state.available[..]), state.available[..], cpms, Members(list))
  {
    ghost var before := state.available[..];
    var winningCPM := 0;
    winners := [];
    var i := 0;
    while i < |list|
      invariant i <= |list|
      invariant Leading(before, cpms, list[..i], winningCPM, winners)
      invariant Paid(before, state.available[..], cpms, Members(list[..i]))
    {
      assert list[i] in list && list[i] !in list[..i];
      assert list[..i + 1] == list[..i] + [list[i]];
      winningCPM, winners := ReserveOne(state, cpms, list[i], winningCPM, winners, before, list[..i]);
      i := i + 1;
    }
    assert list[..i] == list;
  }

  /** Gives back every reservation but the winner's. */
  method FreeLosers(state: BudgetState, cpms: seq<int>, list: seq<nat>, winner: Option<nat>, ghost before: seq<int>)
    requires |cpms| == state.available.Length && Distinct(list)
    requires forall c <- list :: c < |cpms|
    requires Paid(before, state.available[..], cpms, Members(list))
    modifies state.available
    ensures Paid(before, state.available[..], cpms, if winner.Some? && winner.value in list then {winner.value} else {})
  {
    var i := 0;
    ghost var kept := if winner.Some? then {winner.value} else {};
    while i < |list|
      invariant i <= |list|
      invariant Paid(before, state.available[..], cpms, Members(list) - (Members(list[..i]) - kept))
    {
      var c := list[i];
      assert c in list && c !in list[..i];
      assert list[..i + 1] == list[..i] + [c];
      ghost var owed := Members(list) - (Members(list[..i]) - kept);
      assert c in owed;
      if winner != Some(c) {
        assert state.available[c] == state.available[..][c];
        state.Free(c, cpms[c]);
        assert Members(list) - (Members(list[..i + 1]) - kept) == owed - {c};
      } else {
        assert Members(list) - (Members(list[..i + 1]) - kept) == owed;
      }
      i := i + 1;
    }
    assert list[..i] == list;
    assert Members(list) - (Members(list) - kept)
           == if winner.Some? && winner.value in list then {winner.value} else {};
  }

  /**
   `draw` is the random number: every best campaign can win. Afterwards the
   winner, if any, has paid its price, and no other budget has changed.
   */
  method ChooseCampaign(state: BudgetState, cpms: seq<int>, list: seq<nat>, draw: nat) returns (winner: Option<nat>)
    requires |cpms| == state.available.Length && Distinct(list)
    requires forall c <- list :: c < |cpms|
    modifies state.available
    ensures var budget := old(state.available[..]);
            var best := Winners(budget, cpms, list);
            && winner == (if best == [] then None else Some(best[draw % |best|]))
            && (winner.None? <==> forall c <- list :: !Eligible(budget, cpms, c))
            && (winner.Some? ==> Best(budget, cpms, list, winner.value))
            && state.available[..] == (if winner.None? then budget
                                       else budget[winner.value := budget[winner.value] - cpms[winner.value]])
  {
    ghost var before := state.available[..];
    WinnersAreBest(before, cpms, list);
    var winners := ReserveAll(state, cpms, list);
    winner := None;
    if |winners| > 0 {
      winner := Some(winners[draw % |winners|]);
    }
    FreeLosers(state, cpms, list, winner, before);
  }
}
