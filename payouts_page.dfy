/** The logic of the Payouts page (`Payouts.tsx`): status counts, amount
    totals, the analytics card values, the search filter, the badge variant
    of a status, and the recent-activity list. All amounts are tenths of an
    STX, so `toFixed(1)` of a total is the total itself. */
module PayoutsPage {
  import opened Basics
  import opened Ledger

  /** `payouts.filter(p => p.status === st).length`. */
  function CountWithStatus(ps: seq<Payout>, st: PayoutStatus): (n: nat)
    ensures n <= |ps|
    ensures n == 0 <==> forall i :: 0 <= i < |ps| ==> ps[i].status != st
  {
    if ps == [] then 0
    else (if ps[0].status == st then 1 else 0) + CountWithStatus(ps[1..], st)
  }

  /** `payouts.filter(p => p.status === st).reduce((sum, p) => sum + p.amount, 0)`. */
  function SumWithStatus(ps: seq<Payout>, st: PayoutStatus): (total: int)
    ensures (forall i :: 0 <= i < |ps| ==> ps[i].status != st) ==> total == 0
    ensures (forall i :: 0 <= i < |ps| ==> ps[i].amount >= 0) ==> total >= 0
  {
    if ps == [] then 0
    else (if ps[0].status == st then ps[0].amount else 0) + SumWithStatus(ps[1..], st)
  }

  /** Every payout has exactly one of the three statuses, so the three
      counts add up to the number of payouts. */
  lemma {:induction false} StatusCountsPartition(ps: seq<Payout>)
    ensures CountWithStatus(ps, Completed) + CountWithStatus(ps, Pending) + CountWithStatus(ps, Failed) == |ps|
  {
    if ps != [] {
      StatusCountsPartition(ps[1..]);
    }
  }

  /** When every payout of a status carries the same amount, their total is
      that amount times their number. */
  lemma {:induction false} SumOfUniformAmounts(ps: seq<Payout>, st: PayoutStatus, amount: int)
    requires forall i :: 0 <= i < |ps| && ps[i].status == st ==> ps[i].amount == amount
    ensures SumWithStatus(ps, st) == amount * CountWithStatus(ps, st)
  {
    if ps != [] {
      var tail := ps[1..];
      assert forall i :: 0 <= i < |tail| && tail[i].status == st ==> tail[i].amount == amount by {
        forall i | 0 <= i < |tail| && tail[i].status == st
          ensures tail[i].amount == amount
        {
          assert tail[i] == ps[i + 1];
        }
      }
      SumOfUniformAmounts(tail, st, amount);
      var c := CountWithStatus(tail, st);
      if ps[0].status == st {
        assert CountWithStatus(ps, st) == c + 1;
        assert SumWithStatus(ps, st) == amount + amount * c;
        DistributeOverSuccessor(amount, c);
      } else {
        assert CountWithStatus(ps, st) == c;
        assert SumWithStatus(ps, st) == amount * c;
      }
    }
  }

  lemma DistributeOverSuccessor(a: int, c: int)
    ensures a + a * c == a * (c + 1)
  {
  }

  /** Prepending a payout changes the total and the count of its own status
      only, each by its amount and one. */
  lemma PrependPayoutTotals(ps: seq<Payout>, p: Payout, st: PayoutStatus)
    ensures SumWithStatus([p] + ps, st) == SumWithStatus(ps, st) + (if p.status == st then p.amount else 0)
    ensures CountWithStatus([p] + ps, st) == CountWithStatus(ps, st) + (if p.status == st then 1 else 0)
  {
    assert ([p] + ps)[1..] == ps;
  }

  datatype Analytics = Analytics(
    totalPayouts: int,          // tenths of an STX, completed payouts only
    pendingPayouts: int,        // tenths of an STX, pending payouts only
    successfulPayouts: nat,
    failedPayouts: nat,
    pendingCount: nat,
    averagePerCompletion: int)  // tenths of an STX

  /** `averagePerCompletion`: "0.0" without completed payouts, else the
      completed total over their number, rounded to a tenth. */
  function AveragePerCompletion(ps: seq<Payout>): (avg: int)
    ensures CountWithStatus(ps, Completed) == 0 ==> avg == 0
    ensures var n, total := CountWithStatus(ps, Completed), SumWithStatus(ps, Completed);
      n > 0 ==> 2 * avg * n - n <= 2 * total < 2 * avg * n + n
  {
    var n := CountWithStatus(ps, Completed);
    if n > 0 then RoundRatio(SumWithStatus(ps, Completed), n) else 0
  }

  /** When every completed payout is the store's fixed 0.1 STX, the average
      per completion is 0.1 STX (or "0.0" with none). */
  lemma AverageOfFixedPayouts(ps: seq<Payout>)
    requires forall i :: 0 <= i < |ps| && ps[i].status == Completed ==> ps[i].amount == PayoutAmount
    ensures AveragePerCompletion(ps) == if CountWithStatus(ps, Completed) > 0 then PayoutAmount else 0
  {
    SumOfUniformAmounts(ps, Completed, PayoutAmount);
    var n := CountWithStatus(ps, Completed);
    if n > 0 {
      RoundRatioOfMultiple(PayoutAmount, n);
    }
  }

  /** The analytics card values. */
  function ComputeAnalytics(ps: seq<Payout>): (a: Analytics)
    ensures a.totalPayouts == SumWithStatus(ps, Completed) && a.pendingPayouts == SumWithStatus(ps, Pending)
    ensures a.successfulPayouts == CountWithStatus(ps, Completed) && a.failedPayouts == CountWithStatus(ps, Failed)
    ensures a.pendingCount == CountWithStatus(ps, Pending)
    ensures a.averagePerCompletion == AveragePerCompletion(ps)
    ensures a.successfulPayouts + a.failedPayouts + a.pendingCount == |ps|
    ensures a.successfulPayouts == 0 ==> a.totalPayouts == 0 && a.averagePerCompletion == 0
    ensures a.pendingCount == 0 ==> a.pendingPayouts == 0
  {
    StatusCountsPartition(ps);
    Analytics(SumWithStatus(ps, Completed), SumWithStatus(ps, Pending),
              CountWithStatus(ps, Completed), CountWithStatus(ps, Failed), CountWithStatus(ps, Pending),
              AveragePerCompletion(ps))
  }

  predicate PayoutMatches(term: string, p: Payout)
  {
    MatchesTerm(p.teacher, term) || MatchesTerm(p.student, term) || MatchesTerm(p.course, term)
  }

  /** `filteredPayouts`: the payouts whose teacher, student or course
      contains the term, ignoring case, in their order. */
  function FilterPayouts(ps: seq<Payout>, term: string): (r: seq<Payout>)
    ensures forall i :: 0 <= i < |r| ==> r[i] in ps && PayoutMatches(term, r[i])
    ensures forall i :: 0 <= i < |ps| && PayoutMatches(term, ps[i]) ==> ps[i] in r
    ensures IsSubsequence(r, ps)
    ensures forall i :: 0 <= i < |ps| ==>
      multiset(r)[ps[i]] == if PayoutMatches(term, ps[i]) then multiset(ps)[ps[i]] else 0
  {
    FilterCounts(ps, p => PayoutMatches(term, p));
    Filter(ps, p => PayoutMatches(term, p))
  }

  /** An empty search box lists every payout. */
  lemma EmptySearchKeepsAllPayouts(ps: seq<Payout>)
    ensures FilterPayouts(ps, "") == ps
  {
    forall i | 0 <= i < |ps|
      ensures PayoutMatches("", ps[i])
    {
      EmptyTermMatches(ps[i].teacher);
    }
  }

  /** The status as the store writes it. */
  function StatusName(st: PayoutStatus): string
  {
    match st
    case Completed => "completed"
    case Pending => "pending"
    case Failed => "failed"
  }

  datatype BadgeVariant = DefaultVariant | SecondaryVariant | DestructiveVariant

  /** `getStatusVariant`, on any status text. */
  function StatusVariant(status: string): (v: BadgeVariant)
    ensures v == DefaultVariant <==> status == "completed"
    ensures v == DestructiveVariant <==> status == "failed"
    ensures v == SecondaryVariant <==> status != "completed" && status != "failed"
  {
    if status == "completed" then DefaultVariant
    else if status == "pending" then SecondaryVariant
    else if status == "failed" then DestructiveVariant
    else SecondaryVariant
  }

  /** The three statuses get three badge variants, pending the secondary one. */
  lemma StatusVariantOfStatus(st: PayoutStatus)
    ensures StatusVariant(StatusName(st)) ==
      match st
      case Completed => DefaultVariant
      case Pending => SecondaryVariant
      case Failed => DestructiveVariant
  {
  }

  /** `payouts.slice(0, 5)`: the five newest payouts, in order. */
  function RecentActivity(ps: seq<Payout>): (r: seq<Payout>)
    ensures |r| == Min(5, |ps|)
    ensures forall i :: 0 <= i < |r| ==> r[i] == ps[i]
  {
    Take(ps, 5)
  }

  /** A payout just recorded by the store heads the recent activity. */
  lemma RecordedPayoutIsMostRecent(ps: seq<Payout>, p: Payout)
    ensures RecentActivity([p] + ps)[0] == p
    ensures RecentActivity([p] + ps)[1..] == RecentActivity(ps)[..Min(4, |ps|)]
  {
  }
}
