/** What any one step does to any one payout or reward, told from the rows alone: which statement of
    which handler changes it, to what, and that nothing else is touched. */
module LedgerEffects {
  import opened Common
  import opened FiniteSums
  import opened Ledger
  import opened LedgerJobs
  import opened LedgerRuns

  // ----- Payouts -----

  /** The status a payout has after a step. */
  ghost predicate PayoutBecomes(was: Payout, p: Id, step: Step, status: PayoutStatus) {
    match step
    case Confirm(id, tenant) =>
      status == if id == p && was.tenant == tenant && was.status == PayoutStatus.Pending then Processing else was.status
    case MarkPaid(id, tenant) =>
      status == if id == p && was.tenant == tenant && was.status == Processing then PayoutStatus.Paid else was.status
    case Cancel(id, tenant) =>
      status == if id == p && was.tenant == tenant && was.status in {PayoutStatus.Pending, Processing}
                then PayoutStatus.Cancelled else was.status
    case Process(id, transferOk) =>
      status == if id == p && was.status in {PayoutStatus.Pending, Processing}
                then if transferOk then PayoutStatus.Paid else Failed
                else was.status
    case _ => status == was.status
  }

  ghost predicate Attempted(was: Payout, p: Id, step: Step) {
    step.Process? && step.id == p && was.status in {PayoutStatus.Pending, Processing}
  }

  /** A payout after any step of a sound ledger: its status, its attempts, and every other column. */
  lemma {:induction false} PayoutAfter(s: Db, step: Step, t: Db, p: Id)
    requires AllSound(s) && Next(s, step, t) && p in s.payouts
    ensures p in t.payouts && PayoutBecomes(s.payouts[p], p, step, t.payouts[p].status)
    ensures t.payouts[p].attempts == s.payouts[p].attempts + if Attempted(s.payouts[p], p, step) then 1 else 0
    ensures t.payouts[p] == s.payouts[p].(status := t.payouts[p].status, attempts := t.payouts[p].attempts)
  {
    assert Sound(s, s.payouts[p]);
  }

  /** A new payout comes from a job: pending, by Pix to the key its partner then had, for the sum of its
      rewards, each listed once, and the only new one of its owner. */
  lemma {:induction false} NewPayoutAfter(s: Db, step: Step, t: Db, p: Id)
    requires Next(s, step, t) && p in t.payouts && p !in s.payouts
    ensures step.WorkerJob? || step.HandlerJob?
    ensures var q := t.payouts[p];
            && q.status == PayoutStatus.Pending && q.via == Pix && q.attempts == 0
            && q.partner in step.env.partners
            && step.env.partners[q.partner].pixKey == Some(q.pixKey)
            && step.env.partners[q.partner].pixKeyType == Some(q.pixKeyType)
            && Distinct(q.rewardIds) && q.amountCents == SumSeq(AmountFn(s.rewards), q.rewardIds)
    ensures forall p' :: p' in t.payouts && p' !in s.payouts && p' != p ==>
              t.payouts[p'].partner != t.payouts[p].partner || t.payouts[p'].tenant != t.payouts[p].tenant
  {
    forall p' | p' in t.payouts && p' !in s.payouts && p' != p
      ensures t.payouts[p'].partner != t.payouts[p].partner || t.payouts[p'].tenant != t.payouts[p].tenant
    {
      assert t.payouts[p'].Owner() != t.payouts[p].Owner();
    }
  }

  /** The Pix worker on an open payout: paid or failed with the transfer, one attempt more, no other
      payout changed, and no reward touched unless the transfer went through. */
  lemma {:induction false} ProcessEnds(s: Db, t: Db, p: Id, transferOk: bool)
    requires AllSound(s) && Next(s, Process(p, transferOk), t)
    requires p in s.payouts && s.payouts[p].status in {PayoutStatus.Pending, Processing}
    ensures p in t.payouts && t.payouts[p].status == if transferOk then PayoutStatus.Paid else Failed
    ensures t.payouts[p].attempts == s.payouts[p].attempts + 1
    ensures t.payouts.Keys == s.payouts.Keys && forall q :: q in s.payouts && q != p ==> t.payouts[q] == s.payouts[q]
    ensures !transferOk ==> t.rewards == s.rewards
    ensures transferOk ==> (forall id :: id in s.rewards ==>
              && id in t.rewards
              && t.rewards[id] == if id in s.payouts[p].rewardIds then s.rewards[id].(status := RewardStatus.Paid)
                                  else s.rewards[id])
  {
    assert Sound(s, s.payouts[p]);
  }

  // ----- Rewards -----

  /** The payout a step pays or cancels carries the reward. */
  ghost predicate PaidBy(s: Db, step: Step, id: Id) {
    match step
    case MarkPaid(p, tenant) =>
      p in s.payouts && s.payouts[p].tenant == tenant && s.payouts[p].status == Processing && id in s.payouts[p].rewardIds
    case Process(p, transferOk) =>
      p in s.payouts && s.payouts[p].status in {PayoutStatus.Pending, Processing} && transferOk && id in s.payouts[p].rewardIds
    case _ => false
  }

  ghost predicate FreedBy(s: Db, step: Step, id: Id) {
    && step.Cancel? && step.id in s.payouts && s.payouts[step.id].tenant == step.tenant
    && s.payouts[step.id].status in {PayoutStatus.Pending, Processing} && id in s.payouts[step.id].rewardIds
  }

  predicate ApprovedBy(r: Reward, step: Step, id: Id) {
    step.Approve? && step.id == id && r.tenant == step.tenant && r.status == RewardStatus.Pending
  }

  predicate RejectedBy(r: Reward, step: Step, id: Id) {
    step.Reject? && step.id == id && r.tenant == step.tenant && r.status in {RewardStatus.Pending, Approved}
  }

  /** A reward after any step of a sound ledger: its status, the instant of its approval, and every
      other column. */
  lemma {:induction false} RewardAfter(s: Db, step: Step, t: Db, id: Id)
    requires AllSound(s) && Next(s, step, t) && id in s.rewards
    ensures id in t.rewards
    ensures t.rewards[id].status ==
            if PaidBy(s, step, id) then RewardStatus.Paid
            else if FreedBy(s, step, id) || ApprovedBy(s.rewards[id], step, id) then Approved
            else if RejectedBy(s.rewards[id], step, id) then Rejected
            else s.rewards[id].status
    ensures t.rewards[id].approvedAt ==
            if ApprovedBy(s.rewards[id], step, id) then Some(step.now) else s.rewards[id].approvedAt
    ensures t.rewards[id] == s.rewards[id].(status := t.rewards[id].status, approvedAt := t.rewards[id].approvedAt)
  {
    match step
    case MarkPaid(p, tenant) => assert p in s.payouts ==> Sound(s, s.payouts[p]);
    case Cancel(p, tenant) => assert p in s.payouts ==> Sound(s, s.payouts[p]);
    case Process(p, _) => assert p in s.payouts ==> Sound(s, s.payouts[p]);
    case _ =>
  }

  lemma {:induction false} NewRewardsFromInserts(s: Db, step: Step, t: Db, id: Id)
    requires Next(s, step, t) && id in t.rewards && id !in s.rewards
    ensures step == Insert(id, t.rewards[id]) && t.rewards[id].status == RewardStatus.Pending
  {
  }

  // ----- Whom the jobs pay -----

  ghost predicate NoPending(s: Db, r: Reward) {
    forall p :: p in s.payouts && s.payouts[p].partner == r.partner && s.payouts[p].tenant == r.tenant ==>
                  s.payouts[p].status != PayoutStatus.Pending
  }

  ghost predicate InNewPayout(s: Db, t: Db, id: Id) {
    exists p :: p in t.payouts && p !in s.payouts && id in t.payouts[p].rewardIds
  }

  /** Approved, and held as long as the program of its partner asks. */
  ghost predicate WorkerDue(s: Db, env: Env, now: int, id: Id) {
    && id in s.rewards && s.rewards[id].status == Approved && s.rewards[id].partner in env.partners
    && HeldLongEnough(s.rewards[id], env.partners[s.rewards[id].partner].program, env, now)
  }

  predicate NullPix(pa: Partner) {
    pa.pixKey.None? || pa.pixKeyType.None?
  }

  /** The worker job fails on a NULL Pix column of a due reward's partner. */
  ghost predicate NullDue(s: Db, env: Env, now: int) {
    exists id :: WorkerDue(s, env, now, id) && NullPix(env.partners[s.rewards[id].partner])
  }

  lemma {:induction false} WorkerDueIff(s: Db, env: Env, now: int, id: Id)
    ensures WorkerDue(s, env, now, id) <==> id in WorkerEligible(s, env, now)
  {
  }

  lemma {:induction false} NullDueIff(s: Db, env: Env, now: int)
    ensures NullDue(s, env, now) <==> !ScansCleanly(s, env, WorkerEligible(s, env, now))
  {
    forall id ensures WorkerDue(s, env, now, id) <==> id in WorkerEligible(s, env, now) {
      WorkerDueIff(s, env, now, id);
    }
  }

  /** The payout a job opened for an owner carries exactly the owner's selected rewards. */
  lemma {:induction false} InNewPayoutIff(s: Db, t: Db, env: Env, eligible: set<Id>, keys: set<Key>, id: Id)
    requires Opens(s, t, env, eligible, keys) && eligible <= s.rewards.Keys
    ensures InNewPayout(s, t, id) <==> id in eligible && OwnerOf(s.rewards[id]) in keys
  {
    if InNewPayout(s, t, id) {
      var p :| p in t.payouts && p !in s.payouts && id in t.payouts[p].rewardIds;
      assert id in Elements(t.payouts[p].rewardIds);
    }
    if id in eligible && OwnerOf(s.rewards[id]) in keys {
      assert NewPayoutOf(s, t, OwnerOf(s.rewards[id]));
      var p :| p in t.payouts && p !in s.payouts && t.payouts[p].Owner() == OwnerOf(s.rewards[id]);
      assert id in Group(s, eligible, t.payouts[p].Owner());
      assert id in Elements(t.payouts[p].rewardIds);
    }
  }

  lemma {:induction false} NoPendingIff(s: Db, r: Reward)
    ensures NoPending(s, r) <==> !HasPending(s, OwnerOf(r))
  {
    forall p | p in s.payouts
      ensures s.payouts[p].Owner() == OwnerOf(r) <==> s.payouts[p].partner == r.partner && s.payouts[p].tenant == r.tenant
    {
    }
  }

  /** A worker job pays a reward if and only if it is due, no due reward has a NULL Pix column, its
      partner's key is not empty, its owner has no pending payout, and no statement for it fails. */
  lemma {:induction false} WorkerPaysIff(s: Db, t: Db, env: Env, now: int, failing: set<Key>, id: Id)
    requires Opens(s, t, env, WorkerEligible(s, env, now), WorkerOpens(s, env, now) - failing)
    ensures InNewPayout(s, t, id) <==>
            && WorkerDue(s, env, now, id) && !NullDue(s, env, now)
            && env.partners[s.rewards[id].partner].pixKey != Some("")
            && NoPending(s, s.rewards[id]) && Key(s.rewards[id].partner, s.rewards[id].tenant) !in failing
  {
    var eligible := WorkerEligible(s, env, now);
    InNewPayoutIff(s, t, env, eligible, WorkerOpens(s, env, now) - failing, id);
    WorkerDueIff(s, env, now, id);
    NullDueIff(s, env, now);
    if id in eligible {
      NoPendingIff(s, s.rewards[id]);
      assert OwnerOf(s.rewards[id]) in Groups(s, eligible);
    }
  }

  /** A reward the handler job of a tenant takes: approved in the tenant, its partner in the tenant
      with both Pix columns set, and held as long as its own program asks. */
  ghost predicate HandlerDue(s: Db, env: Env, tenant: Id, now: int, id: Id) {
    && id in s.rewards && s.rewards[id].status == Approved && s.rewards[id].tenant == tenant
    && s.rewards[id].partner in env.partners
    && env.partners[s.rewards[id].partner].tenant == tenant && !NullPix(env.partners[s.rewards[id].partner])
    && env.partners[s.rewards[id].partner].pixKey != Some("")
    && HeldLongEnough(s.rewards[id], s.rewards[id].program, env, now)
  }

  /** The handler job of a tenant pays a reward if and only if it is due there, its owner has no
      pending payout, and no statement for it fails. */
  lemma {:induction false} HandlerPaysIff(s: Db, t: Db, env: Env, tenant: Id, now: int, failing: set<Key>, id: Id)
    requires Opens(s, t, env, HandlerEligible(s, env, tenant, now), HandlerOpens(s, env, tenant, now) - failing)
    ensures InNewPayout(s, t, id) <==>
            && HandlerDue(s, env, tenant, now, id)
            && NoPending(s, s.rewards[id]) && Key(s.rewards[id].partner, tenant) !in failing
  {
    var eligible := HandlerEligible(s, env, tenant, now);
    InNewPayoutIff(s, t, env, eligible, HandlerOpens(s, env, tenant, now) - failing, id);
    if id in eligible {
      NoPendingIff(s, s.rewards[id]);
      assert OwnerOf(s.rewards[id]) in Groups(s, eligible);
    }
  }
}
