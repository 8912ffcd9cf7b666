/** How final a reward's status is: payouts write it without looking at what it was. */
module LedgerRewards {
  import opened Common
  import opened FiniteSums
  import opened Ledger
  import opened LedgerRuns
  import opened LedgerExactness

  ghost predicate InOpenPayout(s: Db, id: Id) {
    exists p :: p in s.payouts && s.payouts[p].Open() && id in s.payouts[p].rewardIds
  }

  ghost predicate IsRejected(s: Db, id: Id) {
    id in s.rewards && s.rewards[id].status == Rejected
  }

  ghost predicate IsPaid(s: Db, id: Id) {
    id in s.rewards && s.rewards[id].status == RewardStatus.Paid
  }

  /** The step works on an open payout that carries the reward. */
  ghost predicate Touches(s: Db, step: Step, id: Id) {
    match step
    case MarkPaid(p, tenant) => Owns(s, p, tenant) && s.payouts[p].status == Processing && id in s.payouts[p].rewardIds
    case Cancel(p, tenant) => Owns(s, p, tenant) && s.payouts[p].Open() && id in s.payouts[p].rewardIds
    case Process(p, transferOk) => transferOk && p in s.payouts && s.payouts[p].Open() && id in s.payouts[p].rewardIds
    case _ => false
  }

  lemma {:induction false} TouchedIsWithin(s: Db, p: Id, tenant: Id, id: Id)
    requires AllSound(s) && Owns(s, p, tenant)
    ensures id in Within(s, s.payouts[p].rewardIds, tenant) <==> id in s.payouts[p].rewardIds
  {
  }

  /** A rejected or paid reward changes status if and only if the step works on an open payout that
      carries it and either cancels that payout or finds the reward rejected: cancelling makes it
      approved, paying makes it paid. */
  lemma {:induction false} StatusChangesIff(s: Db, step: Step, t: Db, id: Id)
    requires AllSound(s) && Next(s, step, t) && id in s.rewards && s.rewards[id].status in {Rejected, RewardStatus.Paid}
    ensures id in t.rewards
    ensures t.rewards[id].status != s.rewards[id].status <==>
            Touches(s, step, id) && (step.Cancel? || s.rewards[id].status == Rejected)
    ensures Touches(s, step, id) ==> t.rewards[id].status == if step.Cancel? then Approved else RewardStatus.Paid
  {
    match step
    case MarkPaid(p, tenant) =>
      if Owns(s, p, tenant) {
        TouchedIsWithin(s, p, tenant, id);
      }
    case Cancel(p, tenant) =>
      if Owns(s, p, tenant) {
        TouchedIsWithin(s, p, tenant, id);
      }
    case Process(p, _) =>
      if p in s.payouts {
        assert Sound(s, s.payouts[p]);
      }
    case _ =>
  }

  // ----- Rejection -----

  lemma {:induction false} NoNewCarrier(s: Db, step: Step, t: Db, id: Id)
    requires AllSound(s) && Next(s, step, t) && (IsRejected(s, id) || IsPaid(s, id)) && !InOpenPayout(s, id)
    ensures !InOpenPayout(t, id)
  {
    StepLowersRank(s, step, t);
    forall p | p in t.payouts && t.payouts[p].Open() ensures id !in t.payouts[p].rewardIds {
      if p in s.payouts {
        assert Later(s.payouts[p], t.payouts[p]);
        assert s.payouts[p].Open();
      } else {
        JobFacts(s, step, t);
        assert Elements(t.payouts[p].rewardIds) == Group(s, step.Eligible(s), t.payouts[p].Owner());
        assert id !in Elements(t.payouts[p].rewardIds);
      }
    }
  }

  /** A rejection outside every open payout is final in every run. */
  lemma {:induction false} RejectedStaysRejected(ss: seq<Db>, steps: seq<Step>, i: nat, j: nat, id: Id)
    requires IsRun(ss, steps) && i <= j < |ss|
    requires IsRejected(ss[i], id) && !InOpenPayout(ss[i], id)
    ensures IsRejected(ss[j], id) && !InOpenPayout(ss[j], id)
  {
    if i < j {
      RejectedStaysRejected(ss, steps, i, j - 1, id);
      RunKeepsInv(ss, steps, j - 1);
      assert Next(ss[j - 1], steps[j - 1], ss[j]);
      RejectedStep(ss[j - 1], steps[j - 1], ss[j], id);
    }
  }

  lemma {:induction false} RejectedStep(s: Db, step: Step, t: Db, id: Id)
    requires AllSound(s) && Next(s, step, t) && IsRejected(s, id) && !InOpenPayout(s, id)
    ensures IsRejected(t, id) && !InOpenPayout(t, id)
  {
    NoNewCarrier(s, step, t, id);
    StatusChangesIff(s, step, t, id);
    StepKeepsRewards(s, step, t);
  }

  /** A rejected reward is safe from every next step if and only if no open payout carries it:
      cancelling one that does sets it back to approved. */
  lemma {:induction false} RejectionFinalIff(s: Db, id: Id)
    requires AllSound(s) && IsRejected(s, id)
    ensures (forall step, t :: Next(s, step, t) ==> IsRejected(t, id)) <==> !InOpenPayout(s, id)
  {
    if InOpenPayout(s, id) {
      var p :| p in s.payouts && s.payouts[p].Open() && id in s.payouts[p].rewardIds;
      var step := Cancel(p, s.payouts[p].tenant);
      var t := CancelStep(s, p, s.payouts[p].tenant);
      assert Next(s, step, t);
      StatusChangesIff(s, step, t, id);
      assert !IsRejected(t, id);
    } else {
      forall step, t | Next(s, step, t) ensures IsRejected(t, id) {
        RejectedStep(s, step, t, id);
      }
    }
  }

  // ----- Payment -----

  /** A paid reward is safe from every next step if and only if no open payout carries it too. */
  lemma {:induction false} PaymentFinalIff(s: Db, id: Id)
    requires AllSound(s) && IsPaid(s, id)
    ensures (forall step, t :: Next(s, step, t) ==> IsPaid(t, id)) <==> !InOpenPayout(s, id)
  {
    if InOpenPayout(s, id) {
      var p :| p in s.payouts && s.payouts[p].Open() && id in s.payouts[p].rewardIds;
      var step := Cancel(p, s.payouts[p].tenant);
      var t := CancelStep(s, p, s.payouts[p].tenant);
      assert Next(s, step, t);
      StatusChangesIff(s, step, t, id);
      assert !IsPaid(t, id);
    } else {
      forall step, t | Next(s, step, t) ensures IsPaid(t, id) {
        StatusChangesIff(s, step, t, id);
        StepKeepsRewards(s, step, t);
      }
    }
  }

  lemma {:induction false} PaidIsNotOpen(s: Db, id: Id)
    requires Exact(s) && IsPaid(s, id)
    ensures !InOpenPayout(s, id)
  {
    assert InPaidPayout(s, id);
    var q :| q in s.payouts && s.payouts[q].status == PayoutStatus.Paid && id in s.payouts[q].rewardIds;
    forall p | p in s.payouts && s.payouts[p].Open() ensures id !in s.payouts[p].rewardIds {
      if id in s.payouts[p].rewardIds {
        assert Carries(s.payouts[p], id) && Carries(s.payouts[q], id);
      }
    }
  }

  /** The payment of a reward outside every open payout is final in every run. */
  lemma {:induction false} PaymentStays(ss: seq<Db>, steps: seq<Step>, i: nat, j: nat, id: Id)
    requires IsRun(ss, steps) && i <= j < |ss|
    requires IsPaid(ss[i], id) && !InOpenPayout(ss[i], id)
    ensures IsPaid(ss[j], id) && !InOpenPayout(ss[j], id)
  {
    if i < j {
      PaymentStays(ss, steps, i, j - 1, id);
      RunKeepsInv(ss, steps, j - 1);
      assert Next(ss[j - 1], steps[j - 1], ss[j]);
      PaidStillPaid(ss[j - 1], steps[j - 1], ss[j], id);
    }
  }

  lemma {:induction false} PaidStillPaid(s: Db, step: Step, t: Db, id: Id)
    requires AllSound(s) && Next(s, step, t) && IsPaid(s, id) && !InOpenPayout(s, id)
    ensures IsPaid(t, id) && !InOpenPayout(t, id)
  {
    NoNewCarrier(s, step, t, id);
    StatusChangesIff(s, step, t, id);
  }

  /** If the jobs were safe until a reward is paid, it stays paid whatever the jobs do later. */
  lemma {:induction false} PaidStaysPaid(ss: seq<Db>, steps: seq<Step>, i: nat, j: nat, id: Id)
    requires IsRun(ss, steps) && i <= j < |ss| && IsPaid(ss[i], id)
    requires forall k :: 0 <= k < i ==> JobSafe(ss[k], steps[k])
    ensures IsPaid(ss[j], id)
  {
    SafePrefixExact(ss, steps, i);
    PaidIsNotOpen(ss[i], id);
    PaymentStays(ss, steps, i, j, id);
  }
}
