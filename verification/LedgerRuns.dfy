/** What every run of handlers, jobs and Pix transfers keeps, in any interleaving. */
module LedgerRuns {
  import opened Common
  import opened FiniteSums
  import opened Ledger

  /** One atomic step.  A job step carries the tables it read, its clock and the keys it did open
      a payout for, which failing statements can make fewer than it should. */
  datatype Step =
    | Insert(id: Id, reward: Reward)
    | Approve(id: Id, tenant: Id, now: int)
    | Reject(id: Id, tenant: Id)
    | WorkerJob(env: Env, now: int, keys: set<Key>)
    | HandlerJob(env: Env, tenant: Id, now: int, keys: set<Key>)
    | Confirm(id: Id, tenant: Id)
    | MarkPaid(id: Id, tenant: Id)
    | Cancel(id: Id, tenant: Id)
    | Process(id: Id, transferOk: bool)
  {
    predicate Job() {
      WorkerJob? || HandlerJob?
    }

    /** The rewards a job step groups. */
    function Eligible(s: Db): set<Id>
      requires Job()
    {
      if WorkerJob? then WorkerEligible(s, env, now) else HandlerEligible(s, env, tenant, now)
    }
  }

  ghost predicate Next(s: Db, step: Step, t: Db) {
    match step
    case Insert(id, reward) =>
      id !in s.rewards && reward.status == RewardStatus.Pending && t == s.(rewards := s.rewards[id := reward])
    case Approve(id, tenant, now) => t == ApproveStep(s, id, tenant, now)
    case Reject(id, tenant) => t == RejectStep(s, id, tenant)
    case WorkerJob(env, now, keys) =>
      keys <= WorkerOpens(s, env, now) && Opens(s, t, env, WorkerEligible(s, env, now), keys)
    case HandlerJob(env, tenant, now, keys) =>
      keys <= HandlerOpens(s, env, tenant, now) && Opens(s, t, env, HandlerEligible(s, env, tenant, now), keys)
    case Confirm(id, tenant) => t == ConfirmStep(s, id, tenant)
    case MarkPaid(id, tenant) => t == PaidStep(s, id, tenant)
    case Cancel(id, tenant) => t == CancelStep(s, id, tenant)
    case Process(id, transferOk) => t == ProcessStep(s, id, transferOk)
  }

  /** No payout yet, and no reward paid. */
  ghost predicate Initial(s: Db) {
    s.payouts == map[] && forall id :: id in s.rewards ==> s.rewards[id].status != RewardStatus.Paid
  }

  ghost predicate IsRun(ss: seq<Db>, steps: seq<Step>) {
    && |ss| == |steps| + 1
    && Initial(ss[0])
    && forall i {:trigger steps[i]} :: 0 <= i < |steps| ==> Next(ss[i], steps[i], ss[i + 1])
  }

  // ----- Invariants -----

  /** A payout stands for its rewards: distinct ones, of its own partner and tenant, adding up to
      its amount. */
  ghost predicate Sound(s: Db, p: Payout) {
    && p.via == Pix
    && Distinct(p.rewardIds)
    && (forall id :: id in p.rewardIds ==> id in s.rewards && OwnerOf(s.rewards[id]) == p.Owner())
    && p.amountCents == SumSeq(AmountFn(s.rewards), p.rewardIds)
  }

  ghost predicate AllSound(s: Db) {
    forall id :: id in s.payouts ==> Sound(s, s.payouts[id])
  }

  predicate SamePending(p: Payout, q: Payout) {
    p.status == PayoutStatus.Pending && q.status == PayoutStatus.Pending && p.Owner() == q.Owner()
  }

  ghost predicate OnePending(s: Db) {
    forall i, j :: i in s.payouts && j in s.payouts && SamePending(s.payouts[i], s.payouts[j]) ==> i == j
  }

  ghost predicate InPaidPayout(s: Db, id: Id) {
    exists p :: p in s.payouts && s.payouts[p].status == PayoutStatus.Paid && id in s.payouts[p].rewardIds
  }

  ghost predicate Covered(s: Db) {
    forall id :: id in s.rewards && s.rewards[id].status == RewardStatus.Paid ==> InPaidPayout(s, id)
  }

  ghost predicate Inv(s: Db) {
    AllSound(s) && OnePending(s) && Covered(s)
  }

  /** The identity, owner and amount of a reward never change; only its status moves. */
  ghost predicate RewardsKept(s: Db, t: Db) {
    forall id :: id in s.rewards ==>
                   && id in t.rewards
                   && OwnerOf(t.rewards[id]) == OwnerOf(s.rewards[id])
                   && t.rewards[id].amountCents == s.rewards[id].amountCents
  }

  lemma {:induction false} SoundKept(s: Db, t: Db, p: Payout)
    requires Sound(s, p) && RewardsKept(s, t)
    ensures forall q: Payout :: q == p.(status := q.status, attempts := q.attempts) ==> Sound(t, q)
  {
    SumSeqCongruent(AmountFn(s.rewards), AmountFn(t.rewards), p.rewardIds);
  }

  lemma {:induction false} StepKeepsRewards(s: Db, step: Step, t: Db)
    requires Next(s, step, t)
    ensures RewardsKept(s, t)
  {
  }

  /** How far a payout is from its end. */
  function Rank(status: PayoutStatus): nat {
    match status
    case Pending => 2
    case Processing => 1
    case _ => 0
  }

  /** A payout later in a run: only status and attempts may differ, and a changed status has
      strictly lower rank. */
  ghost predicate Later(p: Payout, q: Payout) {
    && q == p.(status := q.status, attempts := q.attempts)
    && q.attempts >= p.attempts
    && (q.status == p.status || Rank(q.status) < Rank(p.status))
  }

  ghost predicate PayoutsLater(s: Db, t: Db) {
    forall id :: id in s.payouts ==> id in t.payouts && Later(s.payouts[id], t.payouts[id])
  }

  /** A step that writes at most one existing payout, and lowers it. */
  lemma {:induction false} OneLowered(s: Db, t: Db, id: Id)
    requires t.payouts == s.payouts || (id in s.payouts && id in t.payouts && t.payouts == s.payouts[id := t.payouts[id]]
                                           && Later(s.payouts[id], t.payouts[id]))
    ensures PayoutsLater(s, t)
  {
  }

  lemma {:induction false} JobLowersRank(s: Db, t: Db, env: Env, eligible: set<Id>, keys: set<Key>)
    requires Opens(s, t, env, eligible, keys)
    ensures PayoutsLater(s, t)
  {
  }

  lemma {:induction false} ProcessLowersRank(s: Db, id: Id, transferOk: bool)
    requires AllSound(s)
    ensures PayoutsLater(s, ProcessStep(s, id, transferOk))
  {
    assert id in s.payouts ==> Sound(s, s.payouts[id]);
    OneLowered(s, ProcessStep(s, id, transferOk), id);
  }

  /** The worker's return to pending needs a method other than Pix, which no payout has. */
  lemma {:induction false} StepLowersRank(s: Db, step: Step, t: Db)
    requires AllSound(s) && Next(s, step, t)
    ensures PayoutsLater(s, t)
  {
    match step
    case Confirm(id, _) => OneLowered(s, t, id);
    case MarkPaid(id, _) => OneLowered(s, t, id);
    case Cancel(id, _) => OneLowered(s, t, id);
    case Process(id, transferOk) => ProcessLowersRank(s, id, transferOk);
    case WorkerJob(env, now, keys) => JobLowersRank(s, t, env, WorkerEligible(s, env, now), keys);
    case HandlerJob(env, tenant, now, keys) => JobLowersRank(s, t, env, HandlerEligible(s, env, tenant, now), keys);
    case _ =>
  }

  /** The days a reward is held before a job may pay it: its program's, else seven. */
  ghost predicate HeldLongEnough(r: Reward, program: Id, env: Env, now: int) {
    && program in env.programs && r.approvedAt.Some?
    && var days := if env.programs[program].holdDays.Some? then env.programs[program].holdDays.value else 7;
       now - r.approvedAt.value >= days * 86_400_000
  }

  /** A job pays only rewards that are approved and were held long enough, each once: by the
      partner's program in the worker job, by the reward's own in the handler job. */
  lemma {:induction false} JobHonoursHold(s: Db, step: Step, t: Db, p: Id, id: Id)
    requires Next(s, step, t) && p in t.payouts && p !in s.payouts && id in t.payouts[p].rewardIds
    ensures step.Job() && id in s.rewards && s.rewards[id].status == Approved
    ensures var r := s.rewards[id];
            && (step.WorkerJob? ==> && r.partner in step.env.partners
                                    && HeldLongEnough(r, step.env.partners[r.partner].program, step.env, step.now))
            && (step.HandlerJob? ==> r.tenant == step.tenant && HeldLongEnough(r, r.program, step.env, step.now))
  {
    var q := t.payouts[p];
    assert step.Job();
    assert id in Elements(q.rewardIds);
    assert Elements(q.rewardIds) == Group(s, step.Eligible(s), q.Owner());
  }

  lemma {:induction false} JobStepSound(s: Db, t: Db, env: Env, eligible: set<Id>, keys: set<Key>)
    requires AllSound(s) && Opens(s, t, env, eligible, keys)
    ensures AllSound(t)
  {
    forall id | id in t.payouts ensures Sound(t, t.payouts[id]) {
      if id in s.payouts {
        SoundKept(s, t, s.payouts[id]);
      } else {
        var p := t.payouts[id];
        assert forall r :: r in p.rewardIds ==> r in Elements(p.rewardIds);
      }
    }
  }

  lemma {:induction false} StepKeepsSound(s: Db, step: Step, t: Db)
    requires AllSound(s) && Next(s, step, t)
    ensures AllSound(t)
  {
    if step.WorkerJob? {
      JobStepSound(s, t, step.env, WorkerEligible(s, step.env, step.now), step.keys);
    } else if step.HandlerJob? {
      JobStepSound(s, t, step.env, HandlerEligible(s, step.env, step.tenant, step.now), step.keys);
    } else {
      StepKeepsRewards(s, step, t);
      StepLowersRank(s, step, t);
      forall id | id in t.payouts ensures Sound(t, t.payouts[id]) {
        SoundKept(s, t, s.payouts[id]);
      }
    }
  }

  lemma {:induction false} JobKeepsOnePending(s: Db, t: Db, env: Env, eligible: set<Id>, keys: set<Key>)
    requires OnePending(s) && Opens(s, t, env, eligible, keys)
    requires forall k :: k in keys ==> !HasPending(s, k)
    ensures OnePending(t)
  {
  }

  lemma {:induction false} StepKeepsOnePending(s: Db, step: Step, t: Db)
    requires AllSound(s) && OnePending(s) && Next(s, step, t)
    ensures OnePending(t)
  {
    if step.WorkerJob? {
      JobKeepsOnePending(s, t, step.env, WorkerEligible(s, step.env, step.now), step.keys);
    } else if step.HandlerJob? {
      JobKeepsOnePending(s, t, step.env, HandlerEligible(s, step.env, step.tenant, step.now), step.keys);
    } else {
      StepLowersRank(s, step, t);
      LaterKeepsOnePending(s, t);
    }
  }

  /** Pending is where a payout starts, so old payouts never become pending. */
  lemma {:induction false} LaterKeepsOnePending(s: Db, t: Db)
    requires OnePending(s) && PayoutsLater(s, t) && t.payouts.Keys == s.payouts.Keys
    ensures OnePending(t)
  {
  }

  lemma {:induction false} NewlyPaid(s: Db, step: Step, t: Db, id: Id)
    requires Next(s, step, t) && id in t.rewards && t.rewards[id].status == RewardStatus.Paid
    requires !(id in s.rewards && s.rewards[id].status == RewardStatus.Paid)
    ensures InPaidPayout(t, id)
  {
    assert step.MarkPaid? || step.Process?;
    assert step.id in t.payouts && t.payouts[step.id].status == PayoutStatus.Paid && id in t.payouts[step.id].rewardIds;
  }

  lemma {:induction false} StepKeepsCovered(s: Db, step: Step, t: Db)
    requires AllSound(s) && Covered(s) && Next(s, step, t)
    ensures Covered(t)
  {
    StepLowersRank(s, step, t);
    forall id | id in t.rewards && t.rewards[id].status == RewardStatus.Paid ensures InPaidPayout(t, id) {
      if id in s.rewards && s.rewards[id].status == RewardStatus.Paid {
        var p :| p in s.payouts && s.payouts[p].status == PayoutStatus.Paid && id in s.payouts[p].rewardIds;
        assert p in t.payouts && t.payouts[p].status == PayoutStatus.Paid;
      } else {
        NewlyPaid(s, step, t, id);
      }
    }
  }

  /** Every reachable state: payouts are sound, at most one is pending per partner and tenant, and
      every paid reward lies in a paid payout.  No assumption on who runs when. */
  lemma {:induction false} RunKeepsInv(ss: seq<Db>, steps: seq<Step>, i: nat)
    requires IsRun(ss, steps) && i < |ss|
    ensures Inv(ss[i])
  {
    if i > 0 {
      RunKeepsInv(ss, steps, i - 1);
      assert Next(ss[i - 1], steps[i - 1], ss[i]);
      StepKeepsSound(ss[i - 1], steps[i - 1], ss[i]);
      StepKeepsOnePending(ss[i - 1], steps[i - 1], ss[i]);
      StepKeepsCovered(ss[i - 1], steps[i - 1], ss[i]);
    }
  }

  // ----- Life cycle -----

  lemma {:induction false} TurnLowersRank(ss: seq<Db>, steps: seq<Step>, j: nat)
    requires IsRun(ss, steps) && j < |steps|
    ensures PayoutsLater(ss[j], ss[j + 1])
  {
    RunKeepsInv(ss, steps, j);
    assert Next(ss[j], steps[j], ss[j + 1]);
    StepLowersRank(ss[j], steps[j], ss[j + 1]);
  }

  lemma {:induction false} LaterStill(s: Db, t: Db, u: Db)
    requires PayoutsLater(s, t) && PayoutsLater(t, u)
    ensures PayoutsLater(s, u)
  {
  }

  lemma {:induction false} RunLowersRank(ss: seq<Db>, steps: seq<Step>, i: nat, j: nat)
    requires IsRun(ss, steps) && i <= j < |ss|
    ensures PayoutsLater(ss[i], ss[j])
  {
    if i < j {
      RunLowersRank(ss, steps, i, j - 1);
      TurnLowersRank(ss, steps, j - 1);
      LaterStill(ss[i], ss[j - 1], ss[j]);
    }
  }

  /** Over any stretch of any run a payout keeps its owner, rewards, amount and Pix snapshot; its
      status only ever moves down in rank, so paid, failed and cancelled are final. */
  lemma {:induction false} RunLifecycle(ss: seq<Db>, steps: seq<Step>, i: nat, j: nat)
    requires IsRun(ss, steps) && i <= j < |ss|
    ensures PayoutsLater(ss[i], ss[j])
    ensures forall id :: id in ss[i].payouts && Rank(ss[i].payouts[id].status) == 0 ==>
              ss[j].payouts[id].status == ss[i].payouts[id].status
  {
    RunLowersRank(ss, steps, i, j);
    FinalStays(ss[i], ss[j]);
  }

  lemma {:induction false} FinalStays(s: Db, t: Db)
    requires PayoutsLater(s, t)
    ensures forall id :: id in s.payouts && Rank(s.payouts[id].status) == 0 ==> t.payouts[id].status == s.payouts[id].status
  {
  }

  /** How often the status of a payout changes between two points of a run. */
  ghost function Changes(ss: seq<Db>, id: Id, i: nat, j: nat): nat
    requires i <= j < |ss|
    requires forall k :: i <= k <= j ==> id in ss[k].payouts
  {
    if i == j then 0
    else Changes(ss, id, i, j - 1) + if ss[j - 1].payouts[id].status == ss[j].payouts[id].status then 0 else 1
  }

  lemma {:induction false} StaysPresent(ss: seq<Db>, steps: seq<Step>, id: Id, i: nat, j: nat)
    requires IsRun(ss, steps) && i <= j < |ss| && id in ss[i].payouts
    ensures forall k :: i <= k <= j ==> id in ss[k].payouts
  {
    forall k | i <= k <= j ensures id in ss[k].payouts {
      RunLowersRank(ss, steps, i, k);
    }
  }

  /** A payout changes status at most twice in its life, whatever happens around it. */
  lemma {:induction false} AtMostTwoChanges(ss: seq<Db>, steps: seq<Step>, id: Id, i: nat, j: nat)
    requires IsRun(ss, steps) && i <= j < |ss| && id in ss[i].payouts
    ensures forall k :: i <= k <= j ==> id in ss[k].payouts
    ensures Changes(ss, id, i, j) + Rank(ss[j].payouts[id].status) <= Rank(ss[i].payouts[id].status) <= 2
  {
    StaysPresent(ss, steps, id, i, j);
    if i < j {
      AtMostTwoChanges(ss, steps, id, i, j - 1);
      TurnLowersRank(ss, steps, j - 1);
      assert Later(ss[j - 1].payouts[id], ss[j].payouts[id]);
    }
  }
}
