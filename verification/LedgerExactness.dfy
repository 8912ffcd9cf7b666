/** When the ledger is exact: each reward paid through one payout, and money out equal to
    rewards paid. */
module LedgerExactness {
  import opened Common
  import opened FiniteSums
  import opened Ledger
  import opened LedgerRuns

  predicate Live(p: Payout) {
    p.Open() || p.status == PayoutStatus.Paid
  }

  /** No reward lies in two payouts that are pending, processing or paid. */
  ghost predicate OneLive(s: Db) {
    forall i, j, id :: i in s.payouts && j in s.payouts && Carries(s.payouts[i], id) && Carries(s.payouts[j], id) ==> i == j
  }

  predicate Carries(p: Payout, id: Id) {
    Live(p) && id in p.rewardIds
  }

  ghost predicate PaidIffCarried(s: Db) {
    forall id :: id in s.rewards ==> (s.rewards[id].status == RewardStatus.Paid <==> InPaidPayout(s, id))
  }

  ghost predicate Exact(s: Db) {
    OneLive(s) && PaidIffCarried(s)
  }

  ghost predicate InProcessing(s: Db, id: Id) {
    exists p :: p in s.payouts && s.payouts[p].status == Processing && id in s.payouts[p].rewardIds
  }

  /** The guard both jobs lack: no reward about to be grouped is in a processing payout. */
  ghost predicate JobSafe(s: Db, step: Step) {
    step.Job() ==> forall k, id :: k in step.keys && id in Group(s, step.Eligible(s), k) ==> !InProcessing(s, id)
  }

  /** A simpler guard: no payout of a partner about to be paid is open. */
  ghost predicate JobQuiet(s: Db, step: Step) {
    step.Job() ==> forall k, p :: k in step.keys && p in s.payouts && s.payouts[p].Owner() == k ==> !s.payouts[p].Open()
  }

  lemma {:induction false} QuietIsSafe(s: Db, step: Step)
    requires AllSound(s) && JobQuiet(s, step)
    ensures JobSafe(s, step)
  {
  }

  // ----- One step -----

  /** Payout `id` becomes paid and its rewards with it. */
  lemma {:induction false} PayingKeepsExact(s: Db, t: Db, id: Id)
    requires AllSound(s) && Exact(s) && id in s.payouts && s.payouts[id].Open()
    requires id in t.payouts && t.payouts == s.payouts[id := t.payouts[id]]
    requires t.payouts[id].status == PayoutStatus.Paid && t.payouts[id].rewardIds == s.payouts[id].rewardIds
    requires t.rewards == WithStatus(s.rewards, Elements(s.payouts[id].rewardIds), RewardStatus.Paid)
    ensures Exact(t)
  {
    forall r | r in t.rewards ensures t.rewards[r].status == RewardStatus.Paid <==> InPaidPayout(t, r) {
      if r in s.payouts[id].rewardIds {
        assert id in t.payouts && t.payouts[id].status == PayoutStatus.Paid && r in t.payouts[id].rewardIds;
      } else if InPaidPayout(s, r) {
        var p :| p in s.payouts && s.payouts[p].status == PayoutStatus.Paid && r in s.payouts[p].rewardIds;
        assert p in t.payouts && t.payouts[p].status == PayoutStatus.Paid;
      }
    }
    forall i, j, r | i in t.payouts && j in t.payouts && Carries(t.payouts[i], r) && Carries(t.payouts[j], r)
      ensures i == j
    {
      assert Carries(s.payouts[i], r) && Carries(s.payouts[j], r);
    }
  }

  /** Open payout `id` fails or is cancelled; some of its rewards may go back to approved. */
  lemma {:induction false} DroppingKeepsExact(s: Db, t: Db, id: Id, back: set<Id>)
    requires AllSound(s) && Exact(s) && id in s.payouts && s.payouts[id].Open()
    requires id in t.payouts && t.payouts == s.payouts[id := t.payouts[id]]
    requires !Live(t.payouts[id]) && back <= Elements(s.payouts[id].rewardIds)
    requires t.rewards == WithStatus(s.rewards, back, Approved)
    ensures Exact(t)
  {
    forall r | r in t.rewards ensures t.rewards[r].status == RewardStatus.Paid <==> InPaidPayout(t, r) {
      DroppedStillPaid(s, t, id, r);
      if r in back && InPaidPayout(s, r) {
        var p :| p in s.payouts && s.payouts[p].status == PayoutStatus.Paid && r in s.payouts[p].rewardIds;
        assert Carries(s.payouts[p], r) && Carries(s.payouts[id], r);
      }
    }
    DroppedOneLive(s, t, id);
  }

  lemma {:induction false} DroppedStillPaid(s: Db, t: Db, id: Id, r: Id)
    requires id in s.payouts && s.payouts[id].Open()
    requires id in t.payouts && t.payouts == s.payouts[id := t.payouts[id]] && !Live(t.payouts[id])
    ensures InPaidPayout(s, r) == InPaidPayout(t, r)
  {
    if InPaidPayout(s, r) {
      var p :| p in s.payouts && s.payouts[p].status == PayoutStatus.Paid && r in s.payouts[p].rewardIds;
      assert p in t.payouts && t.payouts[p].status == PayoutStatus.Paid;
    }
  }

  lemma {:induction false} DroppedOneLive(s: Db, t: Db, id: Id)
    requires OneLive(s) && id in s.payouts
    requires id in t.payouts && t.payouts == s.payouts[id := t.payouts[id]] && !Live(t.payouts[id])
    ensures OneLive(t)
  {
  }

  /** A step that writes no payout, and no reward to or from paid. */
  lemma {:induction false} RewardEditKeepsExact(s: Db, t: Db)
    requires AllSound(s) && Exact(s) && t.payouts == s.payouts && s.rewards.Keys <= t.rewards.Keys
    requires forall id :: id in t.rewards ==>
               if id in s.rewards then (t.rewards[id].status == RewardStatus.Paid) == (s.rewards[id].status == RewardStatus.Paid)
               else t.rewards[id].status != RewardStatus.Paid
    ensures Exact(t)
  {
  }

  lemma {:induction false} ConfirmKeepsExact(s: Db, id: Id, tenant: Id)
    requires Exact(s)
    ensures Exact(ConfirmStep(s, id, tenant))
  {
    var t := ConfirmStep(s, id, tenant);
    forall r | r in t.rewards ensures InPaidPayout(t, r) == InPaidPayout(s, r) {
      if InPaidPayout(s, r) {
        var p :| p in s.payouts && s.payouts[p].status == PayoutStatus.Paid && r in s.payouts[p].rewardIds;
        assert p in t.payouts && t.payouts[p].status == PayoutStatus.Paid && r in t.payouts[p].rewardIds;
      }
    }
    forall i, j, r | i in t.payouts && j in t.payouts && Carries(t.payouts[i], r) && Carries(t.payouts[j], r)
      ensures i == j
    {
      assert Carries(s.payouts[i], r) && Carries(s.payouts[j], r);
    }
  }

  lemma {:induction false} CancelKeepsExact(s: Db, id: Id, tenant: Id)
    requires AllSound(s) && Exact(s)
    ensures Exact(CancelStep(s, id, tenant))
  {
    if Owns(s, id, tenant) && s.payouts[id].Open() {
      DroppingKeepsExact(s, CancelStep(s, id, tenant), id, Within(s, s.payouts[id].rewardIds, tenant));
    }
  }

  lemma {:induction false} ProcessKeepsExact(s: Db, id: Id, transferOk: bool)
    requires AllSound(s) && Exact(s)
    ensures Exact(ProcessStep(s, id, transferOk))
  {
    if id in s.payouts && s.payouts[id].Open() {
      assert Sound(s, s.payouts[id]);
      if transferOk {
        PayingKeepsExact(s, ProcessStep(s, id, transferOk), id);
      } else {
        assert WithStatus(s.rewards, {}, Approved) == s.rewards;
        DroppingKeepsExact(s, ProcessStep(s, id, transferOk), id, {});
      }
    }
  }

  lemma {:induction false} PaidKeepsExact(s: Db, id: Id, tenant: Id)
    requires AllSound(s) && Exact(s)
    ensures Exact(PaidStep(s, id, tenant))
  {
    if Owns(s, id, tenant) && s.payouts[id].status == Processing {
      assert Sound(s, s.payouts[id]);
      assert Within(s, s.payouts[id].rewardIds, tenant) == Elements(s.payouts[id].rewardIds);
      PayingKeepsExact(s, PaidStep(s, id, tenant), id);
    }
  }

  /** Every step but a job keeps the ledger exact. */
  lemma {:induction false} OtherStepsKeepExact(s: Db, step: Step, t: Db)
    requires AllSound(s) && Exact(s) && Next(s, step, t) && !step.Job()
    ensures Exact(t)
  {
    match step
    case Insert(_, _) => RewardEditKeepsExact(s, t);
    case Approve(_, _, _) => RewardEditKeepsExact(s, t);
    case Reject(_, _) => RewardEditKeepsExact(s, t);
    case Confirm(id, tenant) => ConfirmKeepsExact(s, id, tenant);
    case MarkPaid(id, tenant) => PaidKeepsExact(s, id, tenant);
    case Cancel(id, tenant) => CancelKeepsExact(s, id, tenant);
    case Process(id, transferOk) => ProcessKeepsExact(s, id, transferOk);
  }

  /** What both jobs guarantee about what they open. */
  ghost predicate JobOpens(s: Db, t: Db, env: Env, eligible: set<Id>, keys: set<Key>) {
    && Opens(s, t, env, eligible, keys)
    && (forall k :: k in keys ==> !HasPending(s, k))
    && (forall id :: id in eligible ==> id in s.rewards && s.rewards[id].status == Approved)
  }

  /** A grouped reward cannot be in a paid payout, nor in a pending one of its own partner. */
  lemma {:induction false} GroupedIsFree(s: Db, t: Db, env: Env, eligible: set<Id>, keys: set<Key>, i: Id, j: Id, id: Id)
    requires AllSound(s) && Exact(s) && JobOpens(s, t, env, eligible, keys)
    requires forall k, r :: k in keys && r in Group(s, eligible, k) ==> !InProcessing(s, r)
    requires i in t.payouts && i !in s.payouts && id in t.payouts[i].rewardIds && j in s.payouts
    ensures !Carries(s.payouts[j], id)
  {
    var k := t.payouts[i].Owner();
    assert id in Elements(t.payouts[i].rewardIds);
    assert id in Group(s, eligible, k);
    var p := s.payouts[j];
    assert Sound(s, p);
    assert id in p.rewardIds ==> p.Owner() == k;
    assert id in p.rewardIds && p.status == PayoutStatus.Paid ==> InPaidPayout(s, id);
    assert id in p.rewardIds && p.status == PayoutStatus.Pending ==> HasPending(s, k);
    assert id in p.rewardIds && p.status == Processing ==> InProcessing(s, id);
  }

  lemma {:induction false} SafeJobKeepsExact(s: Db, t: Db, env: Env, eligible: set<Id>, keys: set<Key>)
    requires AllSound(s) && Exact(s) && JobOpens(s, t, env, eligible, keys)
    requires forall k, r :: k in keys && r in Group(s, eligible, k) ==> !InProcessing(s, r)
    ensures Exact(t)
  {
    forall i, j, id | i in t.payouts && j in t.payouts && Carries(t.payouts[i], id) && Carries(t.payouts[j], id)
      ensures i == j
    {
      if i !in s.payouts && j in s.payouts {
        GroupedIsFree(s, t, env, eligible, keys, i, j, id);
      } else if i in s.payouts && j !in s.payouts {
        GroupedIsFree(s, t, env, eligible, keys, j, i, id);
      } else if i !in s.payouts && j !in s.payouts {
        assert id in Elements(t.payouts[i].rewardIds) && id in Elements(t.payouts[j].rewardIds);
        assert t.payouts[i].Owner() == OwnerOf(s.rewards[id]) == t.payouts[j].Owner();
      }
    }
    forall id | id in t.rewards ensures InPaidPayout(t, id) == InPaidPayout(s, id) {
      if InPaidPayout(s, id) {
        var p :| p in s.payouts && s.payouts[p].status == PayoutStatus.Paid && id in s.payouts[p].rewardIds;
        assert p in t.payouts && t.payouts[p].status == PayoutStatus.Paid;
      }
    }
  }

  lemma {:induction false} UnsafeJobBreaksExact(s: Db, t: Db, env: Env, eligible: set<Id>, keys: set<Key>, k: Key, id: Id)
    requires JobOpens(s, t, env, eligible, keys)
    requires k in keys && id in Group(s, eligible, k) && InProcessing(s, id)
    ensures !OneLive(t)
  {
    assert NewPayoutOf(s, t, k);
    var i :| i in t.payouts && i !in s.payouts && t.payouts[i].Owner() == k;
    assert id in Elements(t.payouts[i].rewardIds);
    var j :| j in s.payouts && s.payouts[j].status == Processing && id in s.payouts[j].rewardIds;
    assert Carries(t.payouts[i], id) && Carries(t.payouts[j], id);
  }

  lemma {:induction false} JobFacts(s: Db, step: Step, t: Db)
    requires Next(s, step, t) && step.Job()
    ensures JobOpens(s, t, step.env, step.Eligible(s), step.keys)
  {
  }

  /** From an exact state a step leads to an exact state if and only if it is safe. */
  lemma {:induction false} StepExactIff(s: Db, step: Step, t: Db)
    requires AllSound(s) && Exact(s) && Next(s, step, t)
    ensures Exact(t) <==> JobSafe(s, step)
  {
    if step.Job() {
      JobFacts(s, step, t);
      if JobSafe(s, step) {
        SafeJobKeepsExact(s, t, step.env, step.Eligible(s), step.keys);
      } else {
        var k, id :| k in step.keys && id in Group(s, step.Eligible(s), k) && InProcessing(s, id);
        UnsafeJobBreaksExact(s, t, step.env, step.Eligible(s), step.keys, k, id);
      }
    } else {
      OtherStepsKeepExact(s, step, t);
    }
  }

  lemma {:induction false} SafePrefixExact(ss: seq<Db>, steps: seq<Step>, n: nat)
    requires IsRun(ss, steps) && n < |ss|
    requires forall i :: 0 <= i < n ==> JobSafe(ss[i], steps[i])
    ensures Exact(ss[n])
  {
    if n > 0 {
      SafePrefixExact(ss, steps, n - 1);
      RunKeepsInv(ss, steps, n - 1);
      assert Next(ss[n - 1], steps[n - 1], ss[n]);
      StepExactIff(ss[n - 1], steps[n - 1], ss[n]);
    }
  }

  /** A run is exact all along if and only if every job in it was safe when it ran. */
  lemma {:induction false} RunExactIff(ss: seq<Db>, steps: seq<Step>)
    requires IsRun(ss, steps)
    ensures (forall i :: 0 <= i < |ss| ==> Exact(ss[i])) <==> (forall i :: 0 <= i < |steps| ==> JobSafe(ss[i], steps[i]))
  {
    if forall i :: 0 <= i < |ss| ==> Exact(ss[i]) {
      forall i | 0 <= i < |steps| ensures JobSafe(ss[i], steps[i]) {
        RunKeepsInv(ss, steps, i);
        assert Next(ss[i], steps[i], ss[i + 1]) && Exact(ss[i]) && Exact(ss[i + 1]);
        StepExactIff(ss[i], steps[i], ss[i + 1]);
      }
    }
    if forall i :: 0 <= i < |steps| ==> JobSafe(ss[i], steps[i]) {
      forall i | 0 <= i < |ss| ensures Exact(ss[i]) {
        SafePrefixExact(ss, steps, i);
      }
    }
  }
}
