/**
 Any number of auctions over shared budgets, interleaved at single atomic
 operations, with budget refreshes swapping the whole snapshot in between.
 `cpms[c]` is the price of campaign c; it does not change.
 */
module SharedBudgets {
  import opened Bytes
  import Auction

  /** What an auction does next: reserve `list[i]`, give `list[i]` back, or nothing more. */
  datatype Phase =
    | Reserving(i: nat, top: int, winners: seq<nat>)
    | Freeing(i: nat, winner: Option<nat>)
    | Done(winner: Option<nat>)

  /** `granted` records, per position, whether the reservation left the budget non-negative. */
  datatype Run = Run(snapshot: nat, list: seq<nat>, granted: seq<bool>, phase: Phase)

  datatype Snapshot = Snapshot(initial: seq<int>, available: seq<int>)

  /** A refresh goroutine: scanning, holding a finished scan, or about to clear the flag. */
  datatype Scan = Scanning | Scanned(budgets: seq<int>) | Leaving

  /** New auctions use the last snapshot. */
  datatype State = State(snapshots: seq<Snapshot>, runs: seq<Run>, updating: bool, scans: seq<Scan>)

  datatype Step =
    | Begin(list: seq<nat>)
    | Reserve(k: nat)
    | Choose(k: nat, draw: nat)
    | Free(k: nat)
    | Finish(k: nat)
    | Request
    | ScanEnds(j: nat, result: Option<seq<int>>)
    | Install(j: nat)
    | Leave(j: nat)

  predicate InPhase(s: State, k: nat, reserving: bool, atEnd: bool) {
    && k < |s.runs|
    && var r := s.runs[k];
       && r.snapshot < |s.snapshots|
       && (if reserving then r.phase.Reserving? && (if atEnd then r.phase.i == |r.list| else r.phase.i < |r.list|)
           else r.phase.Freeing? && (if atEnd then r.phase.i == |r.list| else r.phase.i < |r.list|))
  }

  predicate Enabled(cpms: seq<int>, s: State, step: Step) {
    match step
    case Begin(list) => s.snapshots != [] && forall c <- list :: c < |cpms|
    case Reserve(k) => InPhase(s, k, true, false)
    case Choose(k, _) => InPhase(s, k, true, true)
    case Free(k) => InPhase(s, k, false, false)
    case Finish(k) => InPhase(s, k, false, true)
    case Request => true
    case ScanEnds(j, result) => j < |s.scans| && s.scans[j].Scanning? && (result.Some? ==> |result.value| == |cpms|)
    case Install(j) => j < |s.scans| && s.scans[j].Scanned?
    case Leave(j) => j < |s.scans| && s.scans[j].Leaving?
  }

  /** Adds an amount to one campaign's budget in one snapshot. */
  function Adjusted(snapshots: seq<Snapshot>, n: nat, c: nat, amount: int): seq<Snapshot>
    requires n < |snapshots|
  {
    var available := snapshots[n].available;
    if c < |available| then snapshots[n := snapshots[n].(available := available[c := available[c] + amount])]
    else snapshots
  }

  function Affords(cpms: seq<int>, snapshot: Snapshot, c: nat): bool {
    c < |cpms| && c < |snapshot.available| && snapshot.available[c] - cpms[c] >= 0
  }

  function Price(cpms: seq<int>, c: nat): int { if c < |cpms| then cpms[c] else 0 }

  /** The candidates after one more reservation. */
  function Considered(p: Phase, c: nat, price: int, ok: bool): Phase
    requires p.Reserving?
  {
    if !ok || price < p.top then Reserving(p.i + 1, p.top, p.winners)
    else if price > p.top then Reserving(p.i + 1, price, [c])
    else Reserving(p.i + 1, p.top, p.winners + [c])
  }

  function AfterReserve(cpms: seq<int>, s: State, k: nat): State
    requires InPhase(s, k, true, false)
  {
    var r := s.runs[k];
    var c := r.list[r.phase.i];
    var ok := Affords(cpms, s.snapshots[r.snapshot], c);
    s.(snapshots := Adjusted(s.snapshots, r.snapshot, c, -Price(cpms, c)),
       runs := s.runs[k := r.(granted := r.granted + [ok],
                              phase := Considered(r.phase, c, Price(cpms, c), ok))])
  }

  function AfterFree(cpms: seq<int>, s: State, k: nat): State
    requires InPhase(s, k, false, false)
  {
    var r := s.runs[k];
    var c := r.list[r.phase.i];
    var t := s.(runs := s.runs[k := r.(phase := Freeing(r.phase.i + 1, r.phase.winner))]);
    if r.phase.winner == Some(c) then t
    else t.(snapshots := Adjusted(s.snapshots, r.snapshot, c, Price(cpms, c)))
  }

  function Chosen(winners: seq<nat>, draw: nat): Option<nat> {
    if winners == [] then None else Some(winners[draw % |winners|])
  }

  function Apply(cpms: seq<int>, s: State, step: Step): State
    requires Enabled(cpms, s, step)
  {
    match step
    case Begin(list) => s.(runs := s.runs + [Run(|s.snapshots| - 1, list, [], Reserving(0, 0, []))])
    case Reserve(k) => AfterReserve(cpms, s, k)
    case Choose(k, draw) =>
      var r := s.runs[k];
      s.(runs := s.runs[k := r.(phase := Freeing(0, Chosen(r.phase.winners, draw)))])
    case Free(k) => AfterFree(cpms, s, k)
    case Finish(k) =>
      var r := s.runs[k];
      s.(runs := s.runs[k := r.(phase := Done(r.phase.winner))])
    case Request => if s.updating then s else s.(updating := true, scans := s.scans + [Scanning])
    case ScanEnds(j, result) => s.(scans := s.scans[j := if result.None? then Leaving else Scanned(result.value)])
    case Install(j) =>
      var budgets := s.scans[j].budgets;
      s.(snapshots := s.snapshots + [Snapshot(budgets, budgets)], scans := s.scans[j := Leaving])
    case Leave(j) => s.(updating := false, scans := s.scans[..j] + s.scans[j + 1..])
  }

  // What the auctions hold

  function GrantedAt(list: seq<nat>, oks: seq<bool>, i: nat): multiset<nat>
    requires i < |list| == |oks|
  {
    if oks[i] then multiset{list[i]} else multiset{}
  }

  function Granted(list: seq<nat>, oks: seq<bool>): multiset<nat>
    requires |list| == |oks|
  {
    if list == [] then multiset{}
    else
      var n := |list| - 1;
      Granted(list[..n], oks[..n]) + GrantedAt(list, oks, n)
  }

  predicate WellFormed(size: nat, r: Run) {
    && (forall c <- r.list :: c < size)
    && match r.phase
       case Reserving(i, _, _) => i <= |r.list| && |r.granted| == i
       case Freeing(i, _) => i <= |r.list| && |r.granted| == |r.list|
       case Done(_) => |r.granted| == |r.list|
  }

  /** `Held` counts every reservation not given back, `Backed` the affordable ones, `Won` the auctions won. */
  datatype Measure = Held | Backed | Won

  /** The positions whose reservations still stand, for campaigns other than the winner. */
  function Standing(r: Run): (int, int) {
    match r.phase
    case Reserving(i, _, _) => (0, i)
    case Freeing(i, _) => (i, |r.list|)
    case Done(_) => (0, 0)
  }

  predicate Keeps(r: Run, c: nat) {
    !r.phase.Reserving? && r.phase.winner == Some(c)
  }

  function Share(size: nat, m: Measure, r: Run, c: nat): nat
    requires WellFormed(size, r)
  {
    var (lo, hi) := if Keeps(r, c) then (0, |r.list|) else Standing(r);
    match m
    case Held => multiset(r.list[lo..hi])[c]
    case Backed => Granted(r.list[lo..hi], r.granted[lo..hi])[c]
    case Won => if r.phase.Done? && Keeps(r, c) then 1 else 0
  }

  predicate AllWellFormed(size: nat, runs: seq<Run>) { forall r <- runs :: WellFormed(size, r) }

  function Total(size: nat, m: Measure, runs: seq<Run>, n: nat, c: nat): nat
    requires AllWellFormed(size, runs)
  {
    if runs == [] then 0
    else
      (if runs[0].snapshot == n then Share(size, m, runs[0], c) else 0) + Total(size, m, runs[1..], n, c)
  }

  lemma {:induction false} TotalUpdate(size: nat, m: Measure, runs: seq<Run>, k: nat, r: Run, n: nat, c: nat)
    requires AllWellFormed(size, runs) && k < |runs| && WellFormed(size, r) && r.snapshot == runs[k].snapshot
    ensures AllWellFormed(size, runs[k := r])
    ensures Total(size, m, runs[k := r], n, c)
            == Total(size, m, runs, n, c)
               + if r.snapshot == n then Share(size, m, r, c) - Share(size, m, runs[k], c) else 0
  {
    hide Share, WellFormed;
    var next := runs[k := r];
    assert AllWellFormed(size, next);
    if k == 0 {
      assert next[1..] == runs[1..];
    } else {
      assert next[1..] == runs[1..][k - 1 := r] && next[0] == runs[0] && runs[1..][k - 1] == runs[k];
      TotalUpdate(size, m, runs[1..], k - 1, r, n, c);
    }
  }

  lemma {:induction false} TotalSnoc(size: nat, m: Measure, runs: seq<Run>, r: Run, n: nat, c: nat)
    requires AllWellFormed(size, runs) && WellFormed(size, r)
    ensures AllWellFormed(size, runs + [r])
    ensures Total(size, m, runs + [r], n, c)
            == Total(size, m, runs, n, c) + if r.snapshot == n then Share(size, m, r, c) else 0
  {
    hide Share, WellFormed;
    var next := runs + [r];
    assert AllWellFormed(size, next);
    if runs == [] {
      assert next[1..] == [];
    } else {
      assert next[1..] == runs[1..] + [r] && next[0] == runs[0];
      TotalSnoc(size, m, runs[1..], r, n, c);
    }
  }

  lemma {:induction false} GrantedWithin(list: seq<nat>, oks: seq<bool>)
    requires |list| == |oks|
    ensures Granted(list, oks) <= multiset(list)
  {
    if list != [] {
      var n := |list| - 1;
      GrantedWithin(list[..n], oks[..n]);
      assert list == list[..n] + [list[n]];
    }
  }

  lemma GrantedSnoc(list: seq<nat>, oks: seq<bool>)
    requires |list| == |oks| && list != []
    ensures Granted(list, oks)
            == Granted(list[..|list| - 1], oks[..|list| - 1]) + GrantedAt(list, oks, |list| - 1)
  {}

  lemma {:induction false} GrantedHead(list: seq<nat>, oks: seq<bool>)
    requires |list| == |oks| && list != []
    ensures Granted(list, oks) == GrantedAt(list, oks, 0) + Granted(list[1..], oks[1..])
  {
    hide Granted, GrantedAt;
    var n := |list| - 1;
    GrantedSnoc(list, oks);
    if n == 0 {
      NothingGranted(list[..n], oks[..n]);
      NothingGranted(list[1..], oks[1..]);
    } else {
      var front, fronts, tail, tails := list[..n], oks[..n], list[1..], oks[1..];
      GrantedSnoc(tail, tails);
      GrantedHead(front, fronts);
      assert front[1..] == tail[..n - 1] && fronts[1..] == tails[..n - 1];
      assert GrantedAt(front, fronts, 0) == GrantedAt(list, oks, 0) by { SameGrant(front, fronts, 0, list, oks, 0); }
      assert GrantedAt(tail, tails, n - 1) == GrantedAt(list, oks, n) by {
        SameGrant(tail, tails, n - 1, list, oks, n);
      }
      Regroup(GrantedAt(list, oks, 0), Granted(front[1..], fronts[1..]), GrantedAt(list, oks, n));
    }
  }

  lemma NothingGranted(list: seq<nat>, oks: seq<bool>)
    requires list == [] && oks == []
    ensures Granted(list, oks) == multiset{}
  {}

  lemma SameGrant(list: seq<nat>, oks: seq<bool>, i: nat, other: seq<nat>, others: seq<bool>, j: nat)
    requires i < |list| == |oks| && j < |other| == |others| && list[i] == other[j] && oks[i] == others[j]
    ensures GrantedAt(list, oks, i) == GrantedAt(other, others, j)
  {}

  lemma ShareOrder(size: nat, r: Run, c: nat)
    requires WellFormed(size, r) && WinnerBacked(size, r)
    ensures Share(size, Won, r, c) <= Share(size, Backed, r, c) <= Share(size, Held, r, c)
  {
    var (lo, hi) := if Keeps(r, c) then (0, |r.list|) else Standing(r);
    GrantedWithin(r.list[lo..hi], r.granted[lo..hi]);
    assert r.list[0..|r.list|] == r.list && (!r.phase.Reserving? ==> r.granted[0..|r.list|] == r.granted);
  }

  /** A winner, and every candidate, has a reservation of its own that succeeded. */
  predicate WinnerBacked(size: nat, r: Run)
    requires WellFormed(size, r)
  {
    match r.phase
    case Reserving(i, top, winners) =>
      top >= 0 && forall w <- winners :: Granted(r.list[..i], r.granted)[w] >= 1
    case Freeing(_, winner) => winner.Some? ==> Granted(r.list, r.granted)[winner.value] >= 1
    case Done(winner) => winner.Some? ==> Granted(r.list, r.granted)[winner.value] >= 1
  }

  lemma {:induction false} TotalOrder(size: nat, runs: seq<Run>, n: nat, c: nat)
    requires AllWellFormed(size, runs) && forall r <- runs :: WinnerBacked(size, r)
    ensures Total(size, Won, runs, n, c) <= Total(size, Backed, runs, n, c) <= Total(size, Held, runs, n, c)
  {
    hide Share, WellFormed, WinnerBacked;
    if runs != [] {
      ShareOrder(size, runs[0], c);
      TotalOrder(size, runs[1..], n, c);
    }
  }

  // The invariant

  ghost predicate Accounted(cpms: seq<int>, snapshot: Snapshot, runs: seq<Run>, n: nat)
    requires AllWellFormed(|cpms|, runs)
  {
    && |snapshot.initial| == |snapshot.available| == |cpms|
    && forall c :: 0 <= c < |cpms| ==>
         snapshot.available[c] == snapshot.initial[c] - cpms[c] * Total(|cpms|, Held, runs, n, c)
  }

  ghost predicate Covered(cpms: seq<int>, snapshot: Snapshot, runs: seq<Run>, n: nat)
    requires AllWellFormed(|cpms|, runs) && |snapshot.initial| == |cpms|
  {
    forall c :: 0 <= c < |cpms| && cpms[c] > 0 ==>
      Total(|cpms|, Backed, runs, n, c) == 0 || cpms[c] * Total(|cpms|, Backed, runs, n, c) <= snapshot.initial[c]
  }

  ghost predicate Refreshing(cpms: seq<int>, s: State) {
    && |s.scans| == (if s.updating then 1 else 0)
    && forall x <- s.scans :: x.Scanned? ==> |x.budgets| == |cpms|
  }

  ghost predicate Inv(cpms: seq<int>, s: State) {
    && AllWellFormed(|cpms|, s.runs)
    && (forall r <- s.runs :: r.snapshot < |s.snapshots| && WinnerBacked(|cpms|, r))
    && (forall n :: 0 <= n < |s.snapshots| ==>
          Accounted(cpms, s.snapshots[n], s.runs, n) && Covered(cpms, s.snapshots[n], s.runs, n))
    && Refreshing(cpms, s)
  }

  /** The first snapshot comes from a scan too; no auction runs yet. */
  function Initial(budgets: seq<int>): State { State([Snapshot(budgets, budgets)], [], false, []) }

  lemma InvInitially(cpms: seq<int>, budgets: seq<int>)
    requires |budgets| == |cpms|
    ensures Inv(cpms, Initial(budgets))
  {}

  // Reserve

  lemma ReservedShares(cpms: seq<int>, r: Run, ok: bool, c: nat, d: nat)
    requires WellFormed(|cpms|, r) && r.phase.Reserving? && r.phase.i < |r.list| && c == r.list[r.phase.i]
    ensures var t := r.(granted := r.granted + [ok], phase := Considered(r.phase, c, Price(cpms, c), ok));
            && WellFormed(|cpms|, t)
            && Share(|cpms|, Held, t, d) == Share(|cpms|, Held, r, d) + (if d == c then 1 else 0)
            && Share(|cpms|, Backed, t, d) == Share(|cpms|, Backed, r, d) + if d == c && ok then 1 else 0
  {
    hide Granted, GrantedAt;
    PrefixShares(r.list, r.granted, r.phase.i, ok, d);
  }

  lemma PrefixShares(list: seq<nat>, oks: seq<bool>, i: nat, ok: bool, d: nat)
    requires i == |oks| < |list|
    ensures multiset(list[0..i + 1])[d] == multiset(list[0..i])[d] + if d == list[i] then 1 else 0
    ensures (oks + [ok])[0..i + 1] == oks + [ok] && oks[0..i] == oks
    ensures Granted(list[0..i + 1], oks + [ok])[d] == Granted(list[0..i], oks)[d] + if d == list[i] && ok then 1 else 0
  {
    hide Granted;
    var longer := oks + [ok];
    GrantedSnoc(list[0..i + 1], longer);
    assert list[0..i + 1] == list[0..i] + [list[i]];
    assert list[0..i + 1][..i] == list[0..i] && longer[..i] == oks;
  }

  lemma ReservedBacked(cpms: seq<int>, r: Run, ok: bool, c: nat)
    requires WellFormed(|cpms|, r) && WinnerBacked(|cpms|, r)
    requires r.phase.Reserving? && r.phase.i < |r.list| && c == r.list[r.phase.i]
    ensures var t := r.(granted := r.granted + [ok], phase := Considered(r.phase, c, Price(cpms, c), ok));
            WellFormed(|cpms|, t) && WinnerBacked(|cpms|, t)
  {
    var i := r.phase.i;
    var oks := r.granted + [ok];
    assert r.list[..i + 1][..i] == r.list[..i] && oks[..i] == r.granted;
  }

  // One run changes

  lemma Scaled(cpm: int, a: nat, b: nat)
    requires cpm > 0 && a <= b
    ensures cpm * a <= cpm * b
  {}

  lemma Moved(cpm: int, total: int, before: int, after: int)
    ensures cpm * (total + (after - before)) == cpm * total + cpm * (after - before)
  {}

  lemma AccountedAfter(cpms: seq<int>, was: Snapshot, now: Snapshot, runs: seq<Run>, k: nat, r: Run, n: nat)
    requires AllWellFormed(|cpms|, runs) && Accounted(cpms, was, runs, n)
    requires k < |runs| && WellFormed(|cpms|, r) && r.snapshot == runs[k].snapshot
    requires now.initial == was.initial && |now.available| == |cpms|
    requires forall c :: 0 <= c < |cpms| ==>
               now.available[c] == was.available[c]
                 - if r.snapshot == n
                   then cpms[c] * (Share(|cpms|, Held, r, c) - Share(|cpms|, Held, runs[k], c))
                   else 0
    ensures AllWellFormed(|cpms|, runs[k := r]) && Accounted(cpms, now, runs[k := r], n)
  {
    hide Share, WellFormed, Total;
    TotalUpdate(|cpms|, Held, runs, k, r, n, 0);
    forall c | 0 <= c < |cpms|
      ensures now.available[c] == now.initial[c] - cpms[c] * Total(|cpms|, Held, runs[k := r], n, c)
    {
      TotalUpdate(|cpms|, Held, runs, k, r, n, c);
      if r.snapshot == n {
        Moved(cpms[c], Total(|cpms|, Held, runs, n, c), Share(|cpms|, Held, runs[k], c), Share(|cpms|, Held, r, c));
      }
    }
  }

  /** A reservation that left the budget non-negative keeps the affordable ones within the initial budget. */
  lemma CoveredAfter(cpms: seq<int>, was: Snapshot, now: Snapshot, runs: seq<Run>, k: nat, r: Run, n: nat)
    requires AllWellFormed(|cpms|, runs) && |was.initial| == |cpms| && Covered(cpms, was, runs, n)
    requires k < |runs| && WellFormed(|cpms|, r) && r.snapshot == runs[k].snapshot && now.initial == was.initial
    requires AllWellFormed(|cpms|, runs[k := r]) && Accounted(cpms, now, runs[k := r], n)
    requires forall x <- runs[k := r] :: WinnerBacked(|cpms|, x)
    requires forall c :: 0 <= c < |cpms| ==>
               || r.snapshot != n
               || Share(|cpms|, Backed, r, c) <= Share(|cpms|, Backed, runs[k], c)
               || now.available[c] >= 0
    ensures Covered(cpms, now, runs[k := r], n)
  {
    hide Share, WellFormed, Total, WinnerBacked;
    var next := runs[k := r];
    forall c | 0 <= c < |cpms| && cpms[c] > 0
      ensures Total(|cpms|, Backed, next, n, c) == 0 || cpms[c] * Total(|cpms|, Backed, next, n, c) <= now.initial[c]
    {
      TotalUpdate(|cpms|, Backed, runs, k, r, n, c);
      TotalOrder(|cpms|, next, n, c);
      if now.available[c] >= 0 {
        Scaled(cpms[c], Total(|cpms|, Backed, next, n, c), Total(|cpms|, Held, next, n, c));
      } else {
        Scaled(cpms[c], Total(|cpms|, Backed, next, n, c), Total(|cpms|, Backed, runs, n, c));
      }
    }
  }

  /** What a step of one run must do to its shares when it adds `amount` to campaign `c`'s budget. */
  ghost predicate Balanced(cpms: seq<int>, snapshot: Snapshot, r: Run, t: Run, c: nat, amount: int)
    requires WellFormed(|cpms|, r) && WellFormed(|cpms|, t) && |snapshot.available| == |cpms|
  {
    forall d :: 0 <= d < |cpms| ==>
      && cpms[d] * (Share(|cpms|, Held, t, d) - Share(|cpms|, Held, r, d)) == (if d == c then -amount else 0)
      && (Share(|cpms|, Backed, t, d) <= Share(|cpms|, Backed, r, d) || (d == c && snapshot.available[d] + amount >= 0))
  }

  lemma SnapshotKeeps(cpms: seq<int>, s: State, k: nat, t: Run, c: nat, amount: int, n: nat)
    requires Inv(cpms, s) && k < |s.runs| && n < |s.snapshots|
    requires t.snapshot == s.runs[k].snapshot && WellFormed(|cpms|, t)
    requires forall x <- s.runs[k := t] :: WellFormed(|cpms|, x) && WinnerBacked(|cpms|, x)
    requires |s.snapshots[t.snapshot].available| == |cpms|
    requires Balanced(cpms, s.snapshots[t.snapshot], s.runs[k], t, c, amount)
    ensures var next := Adjusted(s.snapshots, t.snapshot, c, amount);
            Accounted(cpms, next[n], s.runs[k := t], n) && Covered(cpms, next[n], s.runs[k := t], n)
  {
    hide Share, WellFormed, Total, WinnerBacked;
    var was, now := s.snapshots[n], Adjusted(s.snapshots, t.snapshot, c, amount)[n];
    assert Accounted(cpms, was, s.runs, n) && Covered(cpms, was, s.runs, n);
    assert now.initial == was.initial && |now.available| == |cpms|;
    AccountedAfter(cpms, was, now, s.runs, k, t, n);
    CoveredAfter(cpms, was, now, s.runs, k, t, n);
  }

  lemma InitialSize(cpms: seq<int>, s: State, n: nat)
    requires Inv(cpms, s) && n < |s.snapshots|
    ensures |s.snapshots[n].initial| == |s.snapshots[n].available| == |cpms|
  {
    hide Total, WellFormed, WinnerBacked;
    assert Accounted(cpms, s.snapshots[n], s.runs, n);
  }

  lemma RunChanges(cpms: seq<int>, s: State, k: nat, t: Run, c: nat, amount: int)
    requires Inv(cpms, s) && k < |s.runs|
    requires t.snapshot == s.runs[k].snapshot && WellFormed(|cpms|, t) && WinnerBacked(|cpms|, t)
    requires |s.snapshots[t.snapshot].available| == |cpms|
    requires Balanced(cpms, s.snapshots[t.snapshot], s.runs[k], t, c, amount)
    ensures Inv(cpms, s.(snapshots := Adjusted(s.snapshots, t.snapshot, c, amount), runs := s.runs[k := t]))
  {
    hide Share, WellFormed, Total, WinnerBacked, Balanced, Accounted, Covered;
    var runs := s.runs[k := t];
    forall j | 0 <= j < |runs|
      ensures WellFormed(|cpms|, runs[j]) && WinnerBacked(|cpms|, runs[j]) && runs[j].snapshot < |s.snapshots|
    {
      assert s.runs[j] in s.runs;
    }
    forall n | 0 <= n < |s.snapshots|
      ensures |s.snapshots[n].initial| == |cpms|
      ensures Accounted(cpms, Adjusted(s.snapshots, t.snapshot, c, amount)[n], runs, n)
              && Covered(cpms, Adjusted(s.snapshots, t.snapshot, c, amount)[n], runs, n)
    {
      InitialSize(cpms, s, n);
      SnapshotKeeps(cpms, s, k, t, c, amount, n);
    }
  }

  lemma ListedCampaign(size: nat, r: Run, i: nat)
    requires WellFormed(size, r) && i < |r.list|
    ensures r.list[i] < size
  {
    assert r.list[i] in r.list;
  }

  lemma ReserveKeeps(cpms: seq<int>, s: State, k: nat)
    requires Inv(cpms, s) && Enabled(cpms, s, Reserve(k))
    ensures Inv(cpms, Apply(cpms, s, Reserve(k)))
  {
    hide Share, Total, Covered, Considered, WellFormed, WinnerBacked;
    var r := s.runs[k];
    var c := r.list[r.phase.i];
    assert WellFormed(|cpms|, r) && WinnerBacked(|cpms|, r);
    ListedCampaign(|cpms|, r, r.phase.i);
    var snapshot := s.snapshots[r.snapshot];
    assert Accounted(cpms, snapshot, s.runs, r.snapshot);
    var ok := Affords(cpms, snapshot, c);
    var t := r.(granted := r.granted + [ok], phase := Considered(r.phase, c, Price(cpms, c), ok));
    ReservedBacked(cpms, r, ok, c);
    forall d: nat { ReservedShares(cpms, r, ok, c, d); }
    RunChanges(cpms, s, k, t, c, -Price(cpms, c));
  }

  // Choose, Free, Finish

  lemma ChosenShares(cpms: seq<int>, r: Run, w: Option<nat>, d: nat)
    requires WellFormed(|cpms|, r) && r.phase.Reserving? && r.phase.i == |r.list|
    ensures var t := r.(phase := Freeing(0, w));
            && WellFormed(|cpms|, t)
            && Share(|cpms|, Held, t, d) == Share(|cpms|, Held, r, d)
            && Share(|cpms|, Backed, t, d) == Share(|cpms|, Backed, r, d)
  {}

  lemma ChooseKeeps(cpms: seq<int>, s: State, k: nat, draw: nat)
    requires Inv(cpms, s) && Enabled(cpms, s, Choose(k, draw))
    ensures Inv(cpms, Apply(cpms, s, Choose(k, draw)))
  {
    hide Share, Total, Covered;
    var r := s.runs[k];
    assert WellFormed(|cpms|, r) && WinnerBacked(|cpms|, r);
    assert Accounted(cpms, s.snapshots[r.snapshot], s.runs, r.snapshot);
    var w := Chosen(r.phase.winners, draw);
    assert r.list[..r.phase.i] == r.list;
    assert w.Some? ==> w.value in r.phase.winners;
    forall d: nat { ChosenShares(cpms, r, w, d); }
    RunChanges(cpms, s, k, r.(phase := Freeing(0, w)), |cpms|, 0);
  }

  lemma FreedShares(cpms: seq<int>, r: Run, d: nat)
    requires WellFormed(|cpms|, r) && r.phase.Freeing? && r.phase.i < |r.list|
    ensures var t := r.(phase := Freeing(r.phase.i + 1, r.phase.winner));
            var c := r.list[r.phase.i];
            && WellFormed(|cpms|, t)
            && Share(|cpms|, Held, t, d) == Share(|cpms|, Held, r, d)
                                             - (if d == c && r.phase.winner != Some(c) then 1 else 0)
            && Share(|cpms|, Backed, t, d) <= Share(|cpms|, Backed, r, d)
  {
    hide Granted, GrantedAt;
    if !Keeps(r, d) {
      SuffixShares(r.list, r.granted, r.phase.i, d);
    }
  }

  lemma SuffixShares(list: seq<nat>, oks: seq<bool>, i: nat, d: nat)
    requires i < |list| == |oks|
    ensures multiset(list[i..|list|])[d] == multiset(list[i + 1..|list|])[d] + if d == list[i] then 1 else 0
    ensures Granted(list[i + 1..|list|], oks[i + 1..|list|])[d] <= Granted(list[i..|list|], oks[i..|list|])[d]
  {
    hide Granted, GrantedAt;
    var rest, grants := list[i..|list|], oks[i..|list|];
    GrantedHead(rest, grants);
    assert rest == [list[i]] + list[i + 1..|list|];
    assert rest[1..] == list[i + 1..|list|] && grants[1..] == oks[i + 1..|list|];
  }

  lemma FreeKeeps(cpms: seq<int>, s: State, k: nat)
    requires Inv(cpms, s) && Enabled(cpms, s, Free(k))
    ensures Inv(cpms, Apply(cpms, s, Free(k)))
  {
    hide Share, Total, Covered, Granted;
    var r := s.runs[k];
    var c := r.list[r.phase.i];
    assert WellFormed(|cpms|, r) && WinnerBacked(|cpms|, r);
    assert c in r.list;
    assert Accounted(cpms, s.snapshots[r.snapshot], s.runs, r.snapshot);
    var t := r.(phase := Freeing(r.phase.i + 1, r.phase.winner));
    forall d: nat { FreedShares(cpms, r, d); }
    if r.phase.winner == Some(c) {
      RunChanges(cpms, s, k, t, |cpms|, 0);
    } else {
      RunChanges(cpms, s, k, t, c, cpms[c]);
    }
  }

  lemma FinishedShares(cpms: seq<int>, r: Run, d: nat)
    requires WellFormed(|cpms|, r) && r.phase.Freeing? && r.phase.i == |r.list|
    ensures var t := r.(phase := Done(r.phase.winner));
            && WellFormed(|cpms|, t)
            && Share(|cpms|, Held, t, d) == Share(|cpms|, Held, r, d)
            && Share(|cpms|, Backed, t, d) == Share(|cpms|, Backed, r, d)
  {}

  lemma FinishKeeps(cpms: seq<int>, s: State, k: nat)
    requires Inv(cpms, s) && Enabled(cpms, s, Finish(k))
    ensures Inv(cpms, Apply(cpms, s, Finish(k)))
  {
    hide Share, Total, Covered, Granted;
    var r := s.runs[k];
    assert WellFormed(|cpms|, r) && WinnerBacked(|cpms|, r);
    assert Accounted(cpms, s.snapshots[r.snapshot], s.runs, r.snapshot);
    forall d: nat { FinishedShares(cpms, r, d); }
    RunChanges(cpms, s, k, r.(phase := Done(r.phase.winner)), |cpms|, 0);
  }

  // Begin and the refreshes

  lemma BeginKeeps(cpms: seq<int>, s: State, list: seq<nat>)
    requires Inv(cpms, s) && Enabled(cpms, s, Begin(list))
    ensures Inv(cpms, Apply(cpms, s, Begin(list)))
  {
    hide Total;
    var r := Run(|s.snapshots| - 1, list, [], Reserving(0, 0, []));
    TotalSnoc(|cpms|, Held, s.runs, r, 0, 0);
    forall n, c | 0 <= n < |s.snapshots| && 0 <= c < |cpms|
      ensures Total(|cpms|, Held, s.runs + [r], n, c) == Total(|cpms|, Held, s.runs, n, c)
      ensures Total(|cpms|, Backed, s.runs + [r], n, c) == Total(|cpms|, Backed, s.runs, n, c)
    {
      TotalSnoc(|cpms|, Held, s.runs, r, n, c);
      TotalSnoc(|cpms|, Backed, s.runs, r, n, c);
    }
  }

  lemma {:induction false} NobodyYet(size: nat, m: Measure, runs: seq<Run>, n: nat, c: nat)
    requires AllWellFormed(size, runs) && forall r <- runs :: r.snapshot < n
    ensures Total(size, m, runs, n, c) == 0
  {
    hide Share, WellFormed;
    if runs != [] {
      assert runs[0] in runs;
      NobodyYet(size, m, runs[1..], n, c);
    }
  }

  lemma InstallKeeps(cpms: seq<int>, s: State, j: nat)
    requires Inv(cpms, s) && Enabled(cpms, s, Install(j))
    ensures Inv(cpms, Apply(cpms, s, Install(j)))
  {
    hide Total, Share, WellFormed, WinnerBacked;
    var n := |s.snapshots|;
    assert s.scans[j] in s.scans;
    var next := s.snapshots + [Snapshot(s.scans[j].budgets, s.scans[j].budgets)];
    forall c: nat { NobodyYet(|cpms|, Held, s.runs, n, c); }
    forall c: nat { NobodyYet(|cpms|, Backed, s.runs, n, c); }
    forall i | 0 <= i < |next|
      ensures Accounted(cpms, next[i], s.runs, i) && Covered(cpms, next[i], s.runs, i)
    {
      if i < n {
        assert next[i] == s.snapshots[i];
      }
    }
  }

  lemma StepKeeps(cpms: seq<int>, s: State, step: Step)
    requires Inv(cpms, s) && Enabled(cpms, s, step)
    ensures Inv(cpms, Apply(cpms, s, step))
  {
    hide Total, WellFormed, WinnerBacked, AfterReserve, AfterFree, Accounted, Covered;
    match step
    case Begin(list) => BeginKeeps(cpms, s, list);
    case Reserve(k) => ReserveKeeps(cpms, s, k);
    case Choose(k, draw) => ChooseKeeps(cpms, s, k, draw);
    case Free(k) => FreeKeeps(cpms, s, k);
    case Finish(k) => FinishKeeps(cpms, s, k);
    case Install(j) => InstallKeeps(cpms, s, j);
    case Request =>
    case ScanEnds(_, _) =>
    case Leave(_) =>
  }

  // Whole runs

  predicate Reaches(cpms: seq<int>, s: State, steps: seq<Step>, t: State)
    decreases |steps|
  {
    if steps == [] then s == t
    else Enabled(cpms, s, steps[0]) && Reaches(cpms, Apply(cpms, s, steps[0]), steps[1..], t)
  }

  lemma {:induction false} RunKeeps(cpms: seq<int>, s: State, steps: seq<Step>, t: State)
    requires Inv(cpms, s) && Reaches(cpms, s, steps, t)
    ensures Inv(cpms, t)
    decreases |steps|
  {
    hide Enabled, Apply, Inv;
    if steps != [] {
      StepKeeps(cpms, s, steps[0]);
      RunKeeps(cpms, Apply(cpms, s, steps[0]), steps[1..], t);
    }
  }

  /**
   However auctions and refreshes interleave, what a snapshot's auctions won
   never costs more than the budget the snapshot started with.
   */
  lemma NoOverspend(cpms: seq<int>, budgets: seq<int>, steps: seq<Step>, t: State, n: nat, c: nat)
    requires |budgets| == |cpms| && Reaches(cpms, Initial(budgets), steps, t)
    requires n < |t.snapshots| && c < |cpms|
    ensures AllWellFormed(|cpms|, t.runs) && |t.snapshots[n].initial| == |cpms|
    ensures cpms[c] * Total(|cpms|, Won, t.runs, n, c)
            <= if t.snapshots[n].initial[c] > 0 then t.snapshots[n].initial[c] else 0
  {
    hide Total, WellFormed, WinnerBacked, Share;
    InvInitially(cpms, budgets);
    RunKeeps(cpms, Initial(budgets), steps, t);
    InitialSize(cpms, t, n);
    assert Covered(cpms, t.snapshots[n], t.runs, n);
    TotalOrder(|cpms|, t.runs, n, c);
    var won, backed := Total(|cpms|, Won, t.runs, n, c), Total(|cpms|, Backed, t.runs, n, c);
    if cpms[c] > 0 {
      Scaled(cpms[c], won, backed);
    } else {
      assert cpms[c] * won <= 0;
    }
  }

  /** The books balance at every step: what is missing is what standing reservations and wins hold. */
  lemma ExactAccounts(cpms: seq<int>, budgets: seq<int>, steps: seq<Step>, t: State, n: nat, c: nat)
    requires |budgets| == |cpms| && Reaches(cpms, Initial(budgets), steps, t)
    requires n < |t.snapshots| && c < |cpms|
    ensures AllWellFormed(|cpms|, t.runs) && |t.snapshots[n].initial| == |t.snapshots[n].available| == |cpms|
    ensures t.snapshots[n].available[c]
            == t.snapshots[n].initial[c] - cpms[c] * Total(|cpms|, Held, t.runs, n, c)
  {
    hide Total, WellFormed, WinnerBacked, Share;
    InvInitially(cpms, budgets);
    RunKeeps(cpms, Initial(budgets), steps, t);
    assert Accounted(cpms, t.snapshots[n], t.runs, n);
  }

  // At rest

  lemma {:induction false} OnceIfDistinct(list: seq<nat>, c: nat)
    requires Distinct(list)
    ensures multiset(list)[c] == if c in list then 1 else 0
  {
    if list != [] {
      OnceIfDistinct(list[1..], c);
      assert list == [list[0]] + list[1..];
    }
  }

  lemma DoneHoldsItsWin(size: nat, r: Run, c: nat)
    requires WellFormed(size, r) && WinnerBacked(size, r) && r.phase.Done? && Distinct(r.list)
    ensures Share(size, Held, r, c) == Share(size, Won, r, c)
  {
    OnceIfDistinct(r.list, c);
    GrantedWithin(r.list, r.granted);
    assert r.list[0..|r.list|] == r.list;
  }

  /** Every auction on snapshot n is over, and its list named each campaign once, as deduplication ensures. */
  predicate AtRest(runs: seq<Run>, n: nat) {
    forall r <- runs :: r.snapshot == n ==> r.phase.Done? && Distinct(r.list)
  }

  lemma {:induction false} RestHoldsWins(size: nat, runs: seq<Run>, n: nat, c: nat)
    requires AllWellFormed(size, runs) && (forall r <- runs :: WinnerBacked(size, r)) && AtRest(runs, n)
    ensures Total(size, Held, runs, n, c) == Total(size, Won, runs, n, c)
  {
    hide Share, WellFormed, WinnerBacked, Distinct;
    if runs != [] {
      assert runs[0] in runs;
      if runs[0].snapshot == n {
        DoneHoldsItsWin(size, runs[0], c);
      }
      RestHoldsWins(size, runs[1..], n, c);
    }
  }

  /** Once its auctions are over, a budget has lost its price for each win and nothing else. */
  lemma RestAccounts(cpms: seq<int>, budgets: seq<int>, steps: seq<Step>, t: State, n: nat, c: nat)
    requires |budgets| == |cpms| && Reaches(cpms, Initial(budgets), steps, t)
    requires n < |t.snapshots| && c < |cpms| && AtRest(t.runs, n)
    ensures AllWellFormed(|cpms|, t.runs) && |t.snapshots[n].initial| == |t.snapshots[n].available| == |cpms|
    ensures t.snapshots[n].available[c]
            == t.snapshots[n].initial[c] - cpms[c] * Total(|cpms|, Won, t.runs, n, c)
  {
    hide Total, WellFormed, WinnerBacked, Share, AtRest;
    InvInitially(cpms, budgets);
    RunKeeps(cpms, Initial(budgets), steps, t);
    ExactAccounts(cpms, budgets, steps, t, n, c);
    RestHoldsWins(|cpms|, t.runs, n, c);
  }

  // Refreshes

  /** A second request while a refresh is under way starts nothing. */
  lemma OneScanAtATime(cpms: seq<int>, budgets: seq<int>, steps: seq<Step>, t: State)
    requires |budgets| == |cpms| && Reaches(cpms, Initial(budgets), steps, t)
    ensures |t.scans| <= 1 && (t.updating <==> t.scans != [])
  {
    InvInitially(cpms, budgets);
    RunKeeps(cpms, Initial(budgets), steps, t);
  }

  lemma StepSnapshots(cpms: seq<int>, s: State, step: Step, n: nat)
    requires Enabled(cpms, s, step) && n < |Apply(cpms, s, step).snapshots|
    ensures var x := Apply(cpms, s, step).snapshots[n].initial;
            (n < |s.snapshots| && x == s.snapshots[n].initial) || Scanned(x) in s.scans
  {}

  lemma StepScans(cpms: seq<int>, s: State, step: Step, x: seq<int>)
    requires Enabled(cpms, s, step) && Scanned(x) in Apply(cpms, s, step).scans
    ensures Scanned(x) in s.scans || (step.ScanEnds? && step.result == Some(x))
  {}

  lemma {:induction false} InstalledFrom(cpms: seq<int>, s: State, steps: seq<Step>, t: State, n: nat)
    requires Reaches(cpms, s, steps, t) && n < |t.snapshots|
    ensures var x := t.snapshots[n].initial;
            || (n < |s.snapshots| && x == s.snapshots[n].initial)
            || Scanned(x) in s.scans
            || exists i :: 0 <= i < |steps| && steps[i].ScanEnds? && steps[i].result == Some(x)
    decreases |steps|
  {
    hide Enabled, Apply;
    if steps != [] {
      var x, next := t.snapshots[n].initial, Apply(cpms, s, steps[0]);
      InstalledFrom(cpms, next, steps[1..], t, n);
      if n < |next.snapshots| && x == next.snapshots[n].initial {
        StepSnapshots(cpms, s, steps[0], n);
      } else if Scanned(x) in next.scans {
        StepScans(cpms, s, steps[0], x);
      } else {
        var i :| 0 <= i < |steps[1..]| && steps[1..][i].ScanEnds? && steps[1..][i].result == Some(x);
        assert steps[i + 1] == steps[1..][i];
      }
    }
  }

  /** Every later snapshot starts as the result of a scan that completed. */
  lemma OnlyCompleteScans(cpms: seq<int>, budgets: seq<int>, steps: seq<Step>, t: State, n: nat)
    requires Reaches(cpms, Initial(budgets), steps, t) && 1 <= n < |t.snapshots|
    ensures exists i :: 0 <= i < |steps| && steps[i].ScanEnds? && steps[i].result == Some(t.snapshots[n].initial)
  {
    InstalledFrom(cpms, Initial(budgets), steps, t, n);
  }

  // An auction that meets no other

  /** Run k has reserved its first i campaigns, and nobody else has touched its snapshot since `budget`. */
  ghost predicate Alone(cpms: seq<int>, s: State, k: nat, budget: seq<int>, i: nat) {
    && k < |s.runs| && |budget| == |cpms|
    && var r := s.runs[k];
       && r.snapshot < |s.snapshots| && Distinct(r.list) && i <= |r.list|
       && (forall j :: 0 <= j < |r.list| ==> r.list[j] < |cpms|)
       && r.phase == Reserving(i, Auction.TopPrice(budget, cpms, r.list[..i]),
                                 Auction.Winners(budget, cpms, r.list[..i]))
       && Auction.Paid(budget, s.snapshots[r.snapshot].available, cpms, Auction.Members(r.list[..i]))
  }

  lemma ReservesAlone(cpms: seq<int>, s: State, k: nat, budget: seq<int>, i: nat)
    requires Alone(cpms, s, k, budget, i) && i < |s.runs[k].list|
    ensures Enabled(cpms, s, Reserve(k)) && Alone(cpms, Apply(cpms, s, Reserve(k)), k, budget, i + 1)
  {
    hide Auction.TopPrice, Auction.Winners, Auction.AtPrice;
    var r := s.runs[k];
    var front, c := r.list[..i], r.list[i];
    assert c !in front;
    assert r.list[..i + 1] == front + [c];
    Auction.PaidMore(budget, s.snapshots[r.snapshot].available, cpms, front, c);
    Auction.WinnersSnoc(budget, cpms, front, c);
    Auction.AtPriceSnoc(budget, cpms, front, c, r.phase.top);
  }

  /**
   The step system and the auction run alone agree: without interference the
   chosen winner is the one among the best campaigns that the draw picks.
   */
  lemma {:induction false} AloneChoosesBest(cpms: seq<int>, s: State, k: nat, budget: seq<int>, i: nat,
                                            steps: seq<Step>,
                                            t: State, draw: nat)
    requires Alone(cpms, s, k, budget, i) && |steps| == |s.runs[k].list| - i
    requires (forall j :: 0 <= j < |steps| ==> steps[j] == Reserve(k)) && Reaches(cpms, s, steps, t)
    ensures Enabled(cpms, t, Choose(k, draw))
    ensures var best := Auction.Winners(budget, cpms, s.runs[k].list);
            Apply(cpms, t, Choose(k, draw)).runs[k].phase
            == Freeing(0, if best == [] then None else Some(best[draw % |best|]))
    decreases |steps|
  {
    hide Auction.TopPrice, Auction.Winners, Auction.Paid, AfterReserve;
    var r := s.runs[k];
    if i < |r.list| {
      ReservesAlone(cpms, s, k, budget, i);
      assert Apply(cpms, s, Reserve(k)).runs[k].list == r.list by { ListStays(cpms, s, k); }
      AloneChoosesBest(cpms, Apply(cpms, s, Reserve(k)), k, budget, i + 1, steps[1..], t, draw);
    } else {
      assert r.list[..i] == r.list;
    }
  }

  lemma ListStays(cpms: seq<int>, s: State, k: nat)
    requires Enabled(cpms, s, Reserve(k))
    ensures Apply(cpms, s, Reserve(k)).runs[k].list == s.runs[k].list
  {}

  lemma StepFixes(cpms: seq<int>, s: State, step: Step, k: nat, n: nat)
    requires Enabled(cpms, s, step)
    ensures k < |s.runs| ==>
              && k < |Apply(cpms, s, step).runs|
              && Apply(cpms, s, step).runs[k].snapshot == s.runs[k].snapshot
              && Apply(cpms, s, step).runs[k].list == s.runs[k].list
    ensures |Apply(cpms, s, step).snapshots| == |s.snapshots| + if step.Install? then 1 else 0
    ensures n < |s.snapshots| ==> Apply(cpms, s, step).snapshots[n].initial == s.snapshots[n].initial
  {
    hide Considered;
  }

  /** An auction works on one snapshot and one list from beginning to end, and a snapshot's start is never changed. */
  lemma {:induction false} OneSnapshotPerAuction(cpms: seq<int>, s: State, steps: seq<Step>, t: State, k: nat, n: nat)
    requires Reaches(cpms, s, steps, t)
    ensures k < |s.runs| ==>
              k < |t.runs| && t.runs[k].snapshot == s.runs[k].snapshot && t.runs[k].list == s.runs[k].list
    ensures n < |s.snapshots| ==> n < |t.snapshots| && t.snapshots[n].initial == s.snapshots[n].initial
    decreases |steps|
  {
    hide Apply, Enabled;
    if steps != [] {
      StepFixes(cpms, s, steps[0], k, n);
      OneSnapshotPerAuction(cpms, Apply(cpms, s, steps[0]), steps[1..], t, k, n);
    }
  }

  predicate NoInstall(steps: seq<Step>) { forall i :: 0 <= i < |steps| ==> !steps[i].Install? }

  lemma {:induction false} SameNewest(cpms: seq<int>, s: State, steps: seq<Step>, t: State)
    requires Reaches(cpms, s, steps, t) && NoInstall(steps)
    ensures |t.snapshots| == |s.snapshots|
    decreases |steps|
  {
    hide Apply, Enabled;
    if steps != [] {
      StepFixes(cpms, s, steps[0], 0, 0);
      SameNewest(cpms, Apply(cpms, s, steps[0]), steps[1..], t);
    }
  }

  /**
   A refresh takes effect: until the next one is installed, every auction that
   begins works on a snapshot that started with exactly the scanned budgets.
   */
  lemma RefreshTakesEffect(cpms: seq<int>, s: State, j: nat, steps: seq<Step>, t: State, list: seq<nat>)
    requires Enabled(cpms, s, Install(j)) && Reaches(cpms, Apply(cpms, s, Install(j)), steps, t)
    requires NoInstall(steps) && Enabled(cpms, t, Begin(list))
    ensures var u := Apply(cpms, t, Begin(list));
            && |u.runs| == |t.runs| + 1
            && var r := u.runs[|t.runs|];
               && r.list == list && r.granted == [] && r.phase == Reserving(0, 0, [])
               && r.snapshot < |u.snapshots| && u.snapshots[r.snapshot].initial == s.scans[j].budgets
  {
    var installed := Apply(cpms, s, Install(j));
    SameNewest(cpms, installed, steps, t);
    OneSnapshotPerAuction(cpms, installed, steps, t, 0, |s.snapshots|);
  }

  lemma {:induction false} NobodyShares(size: nat, m: Measure, runs: seq<Run>, n: nat, c: nat)
    requires AllWellFormed(size, runs)
    requires forall r <- runs :: r.snapshot == n ==> Share(size, m, r, c) == 0
    ensures Total(size, m, runs, n, c) == 0
  {
    hide Share, WellFormed;
    if runs != [] {
      assert runs[0] in runs;
      NobodyShares(size, m, runs[1..], n, c);
    }
  }

  /** The first reservation on a snapshot nobody else uses succeeds just if its starting budget covers the price. */
  lemma FirstReservation(cpms: seq<int>, budgets: seq<int>, steps: seq<Step>, s: State, k: nat)
    requires |budgets| == |cpms| && Reaches(cpms, Initial(budgets), steps, s) && Enabled(cpms, s, Reserve(k))
    requires s.runs[k].phase.i == 0
    requires forall i :: 0 <= i < |s.runs| && i != k ==> s.runs[i].snapshot != s.runs[k].snapshot
    ensures var n, c := s.runs[k].snapshot, s.runs[k].list[0];
            && c < |cpms| == |s.snapshots[n].initial|
            && (Affords(cpms, s.snapshots[n], c) <==> cpms[c] <= s.snapshots[n].initial[c])
  {
    hide Total, WinnerBacked, Reaches, Affords;
    ReservationMeaning(cpms, budgets, steps, s, k);
    var r := s.runs[k];
    assert Share(|cpms|, Held, r, r.list[0]) == 0 by {
      assert r.list[0..0] == [];
    }
    NobodyShares(|cpms|, Held, s.runs, r.snapshot, r.list[0]);
  }

  /** A request with no refresh under way, followed through, installs the scan; a scan that fails changes nothing. */
  lemma RefreshRuns(cpms: seq<int>, s: State, budgets: seq<int>)
    requires !s.updating && s.scans == [] && |budgets| == |cpms|
    ensures Reaches(cpms, s, [Request, ScanEnds(0, Some(budgets)), Install(0), Leave(0)],
                    s.(snapshots := s.snapshots + [Snapshot(budgets, budgets)]))
    ensures Reaches(cpms, s, [Request, ScanEnds(0, None), Leave(0)], s)
  {
    var asked := s.(updating := true, scans := [Scanning]);
    var scanned := s.(updating := true, scans := [Scanned(budgets)]);
    var next := s.(snapshots := s.snapshots + [Snapshot(budgets, budgets)]);
    var leaving, failing := next.(updating := true, scans := [Leaving]), s.(updating := true, scans := [Leaving]);
    Goes(cpms, next, [], next);
    assert Apply(cpms, leaving, Leave(0)) == next;
    assert Apply(cpms, scanned, Install(0)) == leaving;
    assert Apply(cpms, asked, ScanEnds(0, Some(budgets))) == scanned;
    assert Apply(cpms, s, Request) == asked;
    Joins(cpms, leaving, Leave(0), [], next);
    Joins(cpms, scanned, Install(0), [Leave(0)], next);
    Joins(cpms, asked, ScanEnds(0, Some(budgets)), [Install(0), Leave(0)], next);
    Joins(cpms, s, Request, [ScanEnds(0, Some(budgets)), Install(0), Leave(0)], next);
    Goes(cpms, s, [], s);
    assert Apply(cpms, failing, Leave(0)) == s;
    assert Apply(cpms, asked, ScanEnds(0, None)) == failing;
    Joins(cpms, failing, Leave(0), [], s);
    Joins(cpms, asked, ScanEnds(0, None), [Leave(0)], s);
    Joins(cpms, s, Request, [ScanEnds(0, None), Leave(0)], s);
  }

  lemma Goes(cpms: seq<int>, s: State, steps: seq<Step>, t: State)
    requires steps == [] && s == t
    ensures Reaches(cpms, s, steps, t)
  {}

  lemma Joins(cpms: seq<int>, s: State, step: Step, steps: seq<Step>, t: State)
    requires Enabled(cpms, s, step) && Reaches(cpms, Apply(cpms, s, step), steps, t)
    ensures Reaches(cpms, s, [step] + steps, t)
  {
    assert ([step] + steps)[1..] == steps;
  }

  // The winner among what was granted

  /** Each granted campaign costs at most the leading price; no leader only if all granted prices are negative. */
  predicate Dearest(cpms: seq<int>, r: Run) {
    match r.phase
    case Reserving(i, top, winners) =>
      && |r.granted| == i <= |r.list| && top >= 0 && (winners == [] ==> top == 0)
      && (forall w <- winners :: Price(cpms, w) == top)
      && forall j :: 0 <= j < i && r.granted[j] ==> Price(cpms, r.list[j]) <= if winners == [] then -1 else top
    case Freeing(_, winner) => DearestOf(cpms, r, winner)
    case Done(winner) => DearestOf(cpms, r, winner)
  }

  predicate DearestOf(cpms: seq<int>, r: Run, winner: Option<nat>) {
    && |r.granted| == |r.list|
    && (winner.Some? ==> Price(cpms, winner.value) >= 0)
    && forall j :: 0 <= j < |r.list| && r.granted[j] ==>
         Price(cpms, r.list[j]) <= if winner.None? then -1 else Price(cpms, winner.value)
  }

  lemma DearestConsidered(cpms: seq<int>, r: Run, ok: bool)
    requires Dearest(cpms, r) && r.phase.Reserving? && r.phase.i < |r.list|
    ensures var c := r.list[r.phase.i];
            Dearest(cpms, r.(granted := r.granted + [ok], phase := Considered(r.phase, c, Price(cpms, c), ok)))
  {
    hide Price;
  }

  lemma DearestStep(cpms: seq<int>, s: State, step: Step)
    requires Enabled(cpms, s, step) && forall k :: 0 <= k < |s.runs| ==> Dearest(cpms, s.runs[k])
    ensures forall k :: 0 <= k < |Apply(cpms, s, step).runs| ==> Dearest(cpms, Apply(cpms, s, step).runs[k])
  {
    hide Considered, Price;
    if step.Reserve? {
      var r := s.runs[step.k];
      DearestConsidered(cpms, r, Affords(cpms, s.snapshots[r.snapshot], r.list[r.phase.i]));
    }
  }

  lemma {:induction false} DearestRun(cpms: seq<int>, s: State, steps: seq<Step>, t: State)
    requires Reaches(cpms, s, steps, t) && forall k :: 0 <= k < |s.runs| ==> Dearest(cpms, s.runs[k])
    ensures forall k :: 0 <= k < |t.runs| ==> Dearest(cpms, t.runs[k])
    decreases |steps|
  {
    hide Apply, Enabled, Dearest;
    if steps != [] {
      DearestStep(cpms, s, steps[0]);
      DearestRun(cpms, Apply(cpms, s, steps[0]), steps[1..], t);
    }
  }

  /**
   However auctions interleave, one that is over was won by the dearest of the
   campaigns it was granted, and went without a winner only if it was granted
   none with a price.
   */
  lemma WinnerIsDearest(cpms: seq<int>, budgets: seq<int>, steps: seq<Step>, t: State, k: nat, j: nat)
    requires Reaches(cpms, Initial(budgets), steps, t) && k < |t.runs| && t.runs[k].phase.Done?
    requires j < |t.runs[k].granted| <= |t.runs[k].list| && t.runs[k].granted[j]
    ensures var r := t.runs[k];
            if r.phase.winner.None? then Price(cpms, r.list[j]) < 0
            else Price(cpms, r.list[j]) <= Price(cpms, r.phase.winner.value)
  {
    DearestRun(cpms, Initial(budgets), steps, t);
    assert Dearest(cpms, t.runs[k]);
  }

  // What interference costs

  /** A run that holds a campaign's budget only if it has won the campaign. */
  predicate HoldsOnlyWins(size: nat, r: Run, c: nat)
    requires WellFormed(size, r)
  {
    Share(size, Held, r, c) == Share(size, Won, r, c)
  }

  lemma {:induction false} OnlyWinsHeld(size: nat, runs: seq<Run>, n: nat, c: nat)
    requires AllWellFormed(size, runs) && forall r <- runs :: WinnerBacked(size, r)
    ensures Total(size, Held, runs, n, c) == Total(size, Won, runs, n, c)
            <==> forall r <- runs :: r.snapshot == n ==> HoldsOnlyWins(size, r, c)
  {
    hide Share, WellFormed, WinnerBacked;
    if runs != [] {
      OnlyWinsHeld(size, runs[1..], n, c);
      ShareOrder(size, runs[0], c);
      TotalOrder(size, runs[1..], n, c);
      assert runs == [runs[0]] + runs[1..];
    }
  }

  /**
   A reservation succeeds exactly when the budget covers it on top of all that
   standing reservations hold. It succeeds exactly when the budget covers it on
   top of the wins, whenever no run holds the campaign without having won it.
   */
  lemma ReservationMeaning(cpms: seq<int>, budgets: seq<int>, steps: seq<Step>, s: State, k: nat)
    requires |budgets| == |cpms| && Reaches(cpms, Initial(budgets), steps, s) && Enabled(cpms, s, Reserve(k))
    ensures var n, c := s.runs[k].snapshot, s.runs[k].list[s.runs[k].phase.i];
            && AllWellFormed(|cpms|, s.runs) && c < |cpms| == |s.snapshots[n].initial|
            && var ok, initial := Affords(cpms, s.snapshots[n], c), s.snapshots[n].initial[c];
               && (ok <==> cpms[c] * (Total(|cpms|, Held, s.runs, n, c) + 1) <= initial)
               && ((forall r <- s.runs :: r.snapshot == n ==> HoldsOnlyWins(|cpms|, r, c)) ==>
                     (ok <==> cpms[c] * (Total(|cpms|, Won, s.runs, n, c) + 1) <= initial))
  {
    hide Total, WellFormed, WinnerBacked, Share, Reaches, HoldsOnlyWins;
    InvInitially(cpms, budgets);
    RunKeeps(cpms, Initial(budgets), steps, s);
    var n, r := s.runs[k].snapshot, s.runs[k];
    assert WellFormed(|cpms|, r);
    ListedCampaign(|cpms|, r, r.phase.i);
    var c := r.list[r.phase.i];
    ExactAccounts(cpms, budgets, steps, s, n, c);
    OnlyWinsHeld(|cpms|, s.runs, n, c);
    OneMore(cpms[c], Total(|cpms|, Held, s.runs, n, c));
  }

  lemma OneMore(cpm: int, n: nat)
    ensures cpm * (n + 1) == cpm * n + cpm
  {}

  /** An auction that has reserved nothing of a campaign, or is over, with a list without repeats, is such a run. */
  lemma WhoHoldsOnlyWins(size: nat, r: Run, c: nat)
    requires WellFormed(size, r) && WinnerBacked(size, r) && Distinct(r.list)
    ensures r.phase.Done? ==> HoldsOnlyWins(size, r, c)
    ensures r.phase.Reserving? ==> (HoldsOnlyWins(size, r, c) <==> c !in r.list[..r.phase.i])
  {
    if r.phase.Done? {
      DoneHoldsItsWin(size, r, c);
    } else if r.phase.Reserving? {
      assert r.list[0..r.phase.i] == r.list[..r.phase.i];
    }
  }

  // Two campaigns of prices 5 and 10 with just that budget; the first auction lists both, the second the cheap one

  const PRICES := [5, 10]

  function Books(cheap: int, dear: int, first: Run, second: Run): State {
    State([Snapshot(PRICES, [cheap, dear])], [first, second], false, [])
  }

  function First(granted: seq<bool>, phase: Phase): Run { Run(0, [0, 1], granted, phase) }
  function Second(granted: seq<bool>, phase: Phase): Run { Run(0, [0], granted, phase) }

  const FRESH := Reserving(0, 0, [])
  const FIRST_HOLDS := First([true], Reserving(1, 5, [0]))
  const FIRST_READY := First([true, true], Reserving(2, 10, [1]))

  ghost predicate Leads(s: State, step: Step, t: State) { Enabled(PRICES, s, step) && Apply(PRICES, s, step) == t }

  lemma TwoRuns(first: Run, second: Run, other: Run)
    ensures [first, second][0 := other] == [other, second] && [first, second][1 := other] == [first, other]
  {}

  lemma BooksAdjusted(cheap: int, dear: int, c: nat, amount: int)
    requires c < 2
    ensures Adjusted([Snapshot(PRICES, [cheap, dear])], 0, c, amount)
            == [Snapshot(PRICES, if c == 0 then [cheap + amount, dear] else [cheap, dear + amount])]
  {
    assert [cheap, dear][0 := cheap + amount] == [cheap + amount, dear];
    assert [cheap, dear][1 := dear + amount] == [cheap, dear + amount];
  }

  function RunOf(k: nat, first: Run, second: Run): Run { if k == 0 then first else second }

  /** The books after an amount was added to a campaign and run k moved on. */
  function BooksAfter(cheap: int, dear: int, first: Run, second: Run, k: nat, t: Run, c: nat, amount: int): State {
    Books(if c == 0 then cheap + amount else cheap, if c == 0 then dear else dear + amount,
          if k == 0 then t else first, if k == 0 then second else t)
  }

  lemma Reserves(cheap: int, dear: int, first: Run, second: Run, k: nat)
    requires k < 2
    requires var r := RunOf(k, first, second);
             r.snapshot == 0 && r.phase.Reserving? && r.phase.i < |r.list| && r.list[r.phase.i] < 2
    ensures var r := RunOf(k, first, second);
            var c := r.list[r.phase.i];
            var ok := (if c == 0 then cheap - 5 else dear - 10) >= 0;
            Leads(Books(cheap, dear, first, second), Reserve(k),
                  BooksAfter(cheap, dear, first, second, k,
                         r.(granted := r.granted + [ok], phase := Considered(r.phase, c, PRICES[c], ok)),
                         c, -PRICES[c]))
  {
    hide Considered;
    var r := RunOf(k, first, second);
    var c := r.list[r.phase.i];
    var ok := (if c == 0 then cheap - 5 else dear - 10) >= 0;
    BooksAdjusted(cheap, dear, c, -PRICES[c]);
    TwoRuns(first, second, r.(granted := r.granted + [ok], phase := Considered(r.phase, c, PRICES[c], ok)));
  }

  lemma Frees(cheap: int, dear: int, first: Run, second: Run, k: nat)
    requires k < 2
    requires var r := RunOf(k, first, second);
             r.snapshot == 0 && r.phase.Freeing? && r.phase.i < |r.list| && r.list[r.phase.i] < 2
    ensures var r := RunOf(k, first, second);
            var c := r.list[r.phase.i];
            Leads(Books(cheap, dear, first, second), Free(k),
                  BooksAfter(cheap, dear, first, second, k, r.(phase := Freeing(r.phase.i + 1, r.phase.winner)), c,
                         if r.phase.winner == Some(c) then 0 else PRICES[c]))
  {
    var r := RunOf(k, first, second);
    var c := r.list[r.phase.i];
    BooksAdjusted(cheap, dear, c, PRICES[c]);
    TwoRuns(first, second, r.(phase := Freeing(r.phase.i + 1, r.phase.winner)));
  }

  /** Choosing and finishing touch no budget. */
  lemma Turns(cheap: int, dear: int, first: Run, second: Run, k: nat)
    requires k < 2
    requires var r := RunOf(k, first, second);
             r.snapshot == 0 && !r.phase.Done? && r.phase.i == |r.list|
    ensures var r := RunOf(k, first, second);
            var t := r.(phase := if r.phase.Reserving? then Freeing(0, Chosen(r.phase.winners, 0))
                                 else Done(r.phase.winner));
            Leads(Books(cheap, dear, first, second), if r.phase.Reserving? then Choose(k, 0) else Finish(k),
                  BooksAfter(cheap, dear, first, second, k, t, 0, 0))
  {
    var r := RunOf(k, first, second);
    TwoRuns(first, second,
            r.(phase := if r.phase.Reserving? then Freeing(0, Chosen(r.phase.winners, 0)) else Done(r.phase.winner)));
  }

  lemma {:induction false} ReachesSnoc(cpms: seq<int>, s: State, steps: seq<Step>, t: State, step: Step)
    requires Reaches(cpms, s, steps, t) && Enabled(cpms, t, step)
    ensures Reaches(cpms, s, steps + [step], Apply(cpms, t, step))
    decreases |steps|
  {
    hide Apply, Enabled;
    if steps == [] {
      assert ([] + [step])[1..] == [];
    } else {
      ReachesSnoc(cpms, Apply(cpms, s, steps[0]), steps[1..], t, step);
      assert (steps + [step])[1..] == steps[1..] + [step];
    }
  }

  ghost predicate Happens(s: State) { exists steps :: Reaches(PRICES, Initial(PRICES), steps, s) }

  lemma Next(s: State, step: Step, t: State)
    requires Happens(s) && Leads(s, step, t)
    ensures Happens(t)
  {
    hide Apply, Enabled;
    var steps :| Reaches(PRICES, Initial(PRICES), steps, s);
    ReachesSnoc(PRICES, Initial(PRICES), steps, s, step);
  }

  lemma BothBegin()
    ensures Happens(Books(5, 10, First([], FRESH), Second([], FRESH)))
  {
    var s, one := Initial(PRICES), Initial(PRICES).(runs := [First([], FRESH)]);
    assert Reaches(PRICES, s, [], s);
    assert Leads(s, Begin([0, 1]), one) && Leads(one, Begin([0]), Books(5, 10, First([], FRESH), Second([], FRESH)));
    Next(s, Begin([0, 1]), one);
    Next(one, Begin([0]), Books(5, 10, First([], FRESH), Second([], FRESH)));
  }

  /** While the first auction holds the cheap campaign, the second is refused it, and ends with nothing. */
  lemma SecondIsRefused()
    ensures Happens(Books(0, 10, FIRST_HOLDS, Second([false], Done(None))))
  {
    hide Leads, Happens, Apply, Enabled;
    BothBegin();
    var f, r := First([], FRESH), Second([], FRESH);
    assert f.granted + [true] == [true] && r.granted + [false] == [false];
    Reserves(5, 10, f, r, 0);
    Next(Books(5, 10, f, r), Reserve(0), Books(0, 10, FIRST_HOLDS, r));
    var r1 := Second([false], Reserving(1, 0, []));
    Reserves(0, 10, FIRST_HOLDS, r, 1);
    Next(Books(0, 10, FIRST_HOLDS, r), Reserve(1), Books(-5, 10, FIRST_HOLDS, r1));
    var r2 := Second([false], Freeing(0, None));
    Turns(-5, 10, FIRST_HOLDS, r1, 1);
    Next(Books(-5, 10, FIRST_HOLDS, r1), Choose(1, 0), Books(-5, 10, FIRST_HOLDS, r2));
    var r3 := Second([false], Freeing(1, None));
    Frees(-5, 10, FIRST_HOLDS, r2, 1);
    Next(Books(-5, 10, FIRST_HOLDS, r2), Free(1), Books(0, 10, FIRST_HOLDS, r3));
    Turns(0, 10, FIRST_HOLDS, r3, 1);
    Next(Books(0, 10, FIRST_HOLDS, r3), Finish(1), Books(0, 10, FIRST_HOLDS, Second([false], Done(None))));
  }

  /**
   An auction can end with no winner although its campaign keeps the whole
   budget: another auction held it for a moment, and then won something else.
   */
  lemma InterferenceRefuses()
    ensures Happens(Books(5, 0, First([true, true], Done(Some(1))), Second([false], Done(None))))
  {
    hide Leads, Happens, Apply, Enabled;
    SecondIsRefused();
    var r := Second([false], Done(None));
    assert FIRST_HOLDS.granted + [true] == [true, true];
    Reserves(0, 10, FIRST_HOLDS, r, 0);
    Next(Books(0, 10, FIRST_HOLDS, r), Reserve(0), Books(0, 0, FIRST_READY, r));
    var f1 := First([true, true], Freeing(0, Some(1)));
    Turns(0, 0, FIRST_READY, r, 0);
    Next(Books(0, 0, FIRST_READY, r), Choose(0, 0), Books(0, 0, f1, r));
    var f2 := First([true, true], Freeing(1, Some(1)));
    Frees(0, 0, f1, r, 0);
    Next(Books(0, 0, f1, r), Free(0), Books(5, 0, f2, r));
    var f3 := First([true, true], Freeing(2, Some(1)));
    Frees(5, 0, f2, r, 0);
    Next(Books(5, 0, f2, r), Free(0), Books(5, 0, f3, r));
    Turns(5, 0, f3, r, 0);
    Next(Books(5, 0, f3, r), Finish(0), Books(5, 0, First([true, true], Done(Some(1))), r));
  }
}
