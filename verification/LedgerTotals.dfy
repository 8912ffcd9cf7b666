/** What a partner was sent against what its paid rewards are worth. */
module LedgerTotals {
  import opened Common
  import opened FiniteSums
  import opened Ledger
  import opened LedgerRuns
  import opened LedgerExactness

  function PaidRewards(s: Db, k: Key): set<Id> {
    set id | id in s.rewards && s.rewards[id].status == RewardStatus.Paid && OwnerOf(s.rewards[id]) == k
  }

  function PaidPayouts(s: Db, k: Key): set<Id> {
    set id | id in s.payouts && s.payouts[id].status == PayoutStatus.Paid && s.payouts[id].Owner() == k
  }

  function PayoutAmountFn(payouts: map<Id, Payout>): Id -> int {
    id => if id in payouts then payouts[id].amountCents else 0
  }

  ghost function RewardTotal(s: Db, k: Key): int {
    SumOver(AmountFn(s.rewards), PaidRewards(s, k))
  }

  ghost function PayoutTotal(s: Db, k: Key): int {
    SumOver(PayoutAmountFn(s.payouts), PaidPayouts(s, k))
  }

  /** The payouts among `ps` that carry a reward. */
  function Carriers(s: Db, ps: set<Id>, id: Id): set<Id> {
    set p | p in ps && p in s.payouts && id in s.payouts[p].rewardIds
  }

  function WeightFn(s: Db, ps: set<Id>): Id -> int {
    id => AmountFn(s.rewards)(id) * |Carriers(s, ps, id)|
  }

  function ShareFn(s: Db, p: Id): Id -> int
    requires p in s.payouts
  {
    id => if id in s.payouts[p].rewardIds then AmountFn(s.rewards)(id) else 0
  }

  lemma {:induction false} OneCarrierMore(s: Db, ps: set<Id>, p: Id, id: Id)
    requires p in ps && p in s.payouts
    ensures WeightFn(s, ps)(id) == WeightFn(s, ps - {p})(id) + ShareFn(s, p)(id)
  {
    var a, rest := AmountFn(s.rewards)(id), Carriers(s, ps - {p}, id);
    if id in s.payouts[p].rewardIds {
      assert Carriers(s, ps, id) == rest + {p};
      assert a * (|rest| + 1) == a * |rest| + a;
    } else {
      assert Carriers(s, ps, id) == rest;
    }
  }

  /** Payouts are worth their rewards, each counted once for every payout that carries it. */
  lemma {:induction false} PayoutsByReward(s: Db, ps: set<Id>)
    requires AllSound(s) && ps <= s.payouts.Keys
    ensures SumOver(PayoutAmountFn(s.payouts), ps) == SumOver(WeightFn(s, ps), s.rewards.Keys)
    decreases ps
  {
    var ids := s.rewards.Keys;
    if ps == {} {
      forall id | id in ids ensures WeightFn(s, ps)(id) == 0 {
        assert Carriers(s, ps, id) == {};
      }
      SumZero(WeightFn(s, ps), ids);
    } else {
      var p :| p in ps;
      PayoutsByReward(s, ps - {p});
      SumRemove(PayoutAmountFn(s.payouts), ps, p);
      PayoutIsItsShare(s, p);
      forall id | id in ids ensures WeightFn(s, ps)(id) == WeightFn(s, ps - {p})(id) + ShareFn(s, p)(id) {
        OneCarrierMore(s, ps, p, id);
      }
      SumPlus(WeightFn(s, ps - {p}), ShareFn(s, p), WeightFn(s, ps), ids);
    }
  }

  lemma {:induction false} PayoutIsItsShare(s: Db, p: Id)
    requires AllSound(s) && p in s.payouts
    ensures s.payouts[p].amountCents == SumOver(ShareFn(s, p), s.rewards.Keys)
  {
    var mine := s.payouts[p].rewardIds;
    assert Sound(s, s.payouts[p]);
    SumSeqIsSumOver(AmountFn(s.rewards), mine);
    SumRestrict(AmountFn(s.rewards), ShareFn(s, p), s.rewards.Keys, Elements(mine));
  }

  /** How often a partner's paid payouts carry a reward beyond the once that its status accounts
      for. */
  function Surplus(s: Db, k: Key, id: Id): int {
    |Carriers(s, PaidPayouts(s, k), id)| - if id in PaidRewards(s, k) then 1 else 0
  }

  function SurplusFn(s: Db, k: Key): Id -> int {
    id => AmountFn(s.rewards)(id) * Surplus(s, k, id)
  }

  function PaidFn(s: Db, k: Key): Id -> int {
    id => if id in PaidRewards(s, k) then AmountFn(s.rewards)(id) else 0
  }

  lemma {:induction false} WeightSplits(s: Db, k: Key, id: Id)
    ensures WeightFn(s, PaidPayouts(s, k))(id) == SurplusFn(s, k)(id) + PaidFn(s, k)(id)
  {
    Distribute(AmountFn(s.rewards)(id), |Carriers(s, PaidPayouts(s, k), id)|);
  }

  lemma Distribute(a: int, n: int)
    ensures a * (n - 1) == a * n - a
  {
  }

  /** The exact overpayment of a partner: the amount of each reward times its surplus. */
  lemma {:induction false} Overpayment(s: Db, k: Key)
    requires AllSound(s)
    ensures PayoutTotal(s, k) - RewardTotal(s, k) == SumOver(SurplusFn(s, k), s.rewards.Keys)
  {
    var ids, weight := s.rewards.Keys, WeightFn(s, PaidPayouts(s, k));
    PayoutsByReward(s, PaidPayouts(s, k));
    SumRestrict(AmountFn(s.rewards), PaidFn(s, k), ids, PaidRewards(s, k));
    forall id | id in ids ensures weight(id) == SurplusFn(s, k)(id) + PaidFn(s, k)(id) {
      WeightSplits(s, k, id);
    }
    SumPlus(SurplusFn(s, k), PaidFn(s, k), weight, ids);
  }

  lemma {:induction false} SurplusNotNegative(s: Db, k: Key, id: Id)
    requires AllSound(s) && Covered(s)
    ensures Surplus(s, k, id) >= 0
  {
    if id in PaidRewards(s, k) {
      assert InPaidPayout(s, id);
      var p :| p in s.payouts && s.payouts[p].status == PayoutStatus.Paid && id in s.payouts[p].rewardIds;
      assert Sound(s, s.payouts[p]);
      assert p in Carriers(s, PaidPayouts(s, k), id);
    }
  }

  lemma {:induction false} NoSurplusWhenExact(s: Db, k: Key, id: Id)
    requires AllSound(s) && Exact(s) && id in s.rewards
    ensures Surplus(s, k, id) == 0
  {
    var carriers := Carriers(s, PaidPayouts(s, k), id);
    if p :| p in carriers {
      assert Sound(s, s.payouts[p]);
      assert InPaidPayout(s, id);
      forall q | q in carriers ensures q == p {
        assert Carries(s.payouts[p], id) && Carries(s.payouts[q], id);
      }
      assert carriers == {p};
    } else {
      assert carriers == {};
      SurplusNotNegative(s, k, id);
    }
  }

  /** In an exact state each partner has been sent exactly what its paid rewards add up to. */
  lemma {:induction false} ExactTotals(s: Db, k: Key)
    requires AllSound(s) && Exact(s)
    ensures PayoutTotal(s, k) == RewardTotal(s, k)
  {
    Overpayment(s, k);
    forall id | id in s.rewards.Keys ensures SurplusFn(s, k)(id) == 0 {
      NoSurplusWhenExact(s, k, id);
    }
    SumZero(SurplusFn(s, k), s.rewards.Keys);
  }

  /** In every reachable state, with no assumption on scheduling, a partner's paid rewards never
      exceed what was paid out to it, and the two are equal exactly when no reward that is worth
      something has a surplus. */
  lemma {:induction false} PaidRewardsCovered(ss: seq<Db>, steps: seq<Step>, i: nat, k: Key)
    requires IsRun(ss, steps) && i < |ss|
    requires forall id :: id in ss[i].rewards ==> ss[i].rewards[id].amountCents >= 0
    ensures RewardTotal(ss[i], k) <= PayoutTotal(ss[i], k)
    ensures RewardTotal(ss[i], k) == PayoutTotal(ss[i], k) <==>
            forall id :: id in ss[i].rewards && ss[i].rewards[id].amountCents > 0 ==> Surplus(ss[i], k, id) == 0
  {
    var s := ss[i];
    RunKeepsInv(ss, steps, i);
    Overpayment(s, k);
    forall id | id in s.rewards.Keys
      ensures SurplusFn(s, k)(id) >= 0
      ensures SurplusFn(s, k)(id) == 0 <==> s.rewards[id].amountCents == 0 || Surplus(s, k, id) == 0
    {
      SurplusNotNegative(s, k, id);
      Product(s.rewards[id].amountCents, Surplus(s, k, id));
    }
    SumNonNegative(SurplusFn(s, k), s.rewards.Keys);
    SumZeroIff(SurplusFn(s, k), s.rewards.Keys);
    assert forall id :: id in s.rewards ==> id in s.rewards.Keys;
  }

  lemma {:induction false} Product(a: nat, n: nat)
    ensures a * n >= 0
    ensures a * n == 0 <==> a == 0 || n == 0
  {
    if a > 0 && n > 0 {
      assert a * n >= a * 1;
    }
  }

  /** As long as the jobs of a run were safe, no partner was paid more or less than its paid rewards. */
  lemma {:induction false} SafeRunTotals(ss: seq<Db>, steps: seq<Step>, i: nat, k: Key)
    requires IsRun(ss, steps) && i < |ss|
    requires forall j :: 0 <= j < i ==> JobSafe(ss[j], steps[j])
    ensures PayoutTotal(ss[i], k) == RewardTotal(ss[i], k)
  {
    RunKeepsInv(ss, steps, i);
    SafePrefixExact(ss, steps, i);
    ExactTotals(ss[i], k);
  }

  /** In particular as long as they paid only partners with no open payout. */
  lemma {:induction false} QuietRunExact(ss: seq<Db>, steps: seq<Step>, i: nat, k: Key)
    requires IsRun(ss, steps) && i < |ss|
    requires forall j :: 0 <= j < i ==> JobQuiet(ss[j], steps[j])
    ensures Exact(ss[i]) && PayoutTotal(ss[i], k) == RewardTotal(ss[i], k)
  {
    forall j | 0 <= j < i ensures JobSafe(ss[j], steps[j]) {
      RunKeepsInv(ss, steps, j);
      QuietIsSafe(ss[j], steps[j]);
    }
    SafePrefixExact(ss, steps, i);
    SafeRunTotals(ss, steps, i, k);
  }
}
