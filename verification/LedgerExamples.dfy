/** Short runs of the ledger that reach what its rules do not rule out. */
module LedgerExamples {
  import opened Common
  import opened FiniteSums
  import opened Ledger
  import opened LedgerRuns
  import opened LedgerExactness
  import opened LedgerJobs
  import opened LedgerRewards
  import opened LedgerStore
  import opened LedgerTotals

  // ----- The unguarded job, on a concrete run -----

  const ACME := Id(1)
  const ANA := Id(2)
  const PLAN := Id(3)
  const SALE := Id(7)
  const FIRST := Id(10)
  const SECOND := Id(11)
  const ANA_AT_ACME: Key := Key(ANA, ACME)
  const TABLES: Env := Env(map[ANA := Partner(ACME, PLAN, Some("k"), Some("cpf"))], map[PLAN := Program(Some(0))])

  function OneReward(amount: int, status: RewardStatus): map<Id, Reward> {
    map[SALE := Reward(ACME, ANA, PLAN, amount, status, Some(0))]
  }

  function PayoutOfSale(amount: int, status: PayoutStatus): Payout {
    Payout(ACME, ANA, [SALE], amount, Pix, status, "k", "cpf", 0)
  }

  function TwoPayouts(amount: int, first: PayoutStatus, second: PayoutStatus): map<Id, Payout> {
    map[FIRST := PayoutOfSale(amount, first), SECOND := PayoutOfSale(amount, second)]
  }

  /** Approved reward SALE goes through two payouts: the second job runs while the first payout is
      processing, then both are marked paid. */
  function DoubleRun(a: int): (seq<Db>, seq<Step>) {
    ([Db(OneReward(a, Approved), map[]),
      Db(OneReward(a, Approved), map[FIRST := PayoutOfSale(a, PayoutStatus.Pending)]),
      Db(OneReward(a, Approved), map[FIRST := PayoutOfSale(a, Processing)]),
      Db(OneReward(a, Approved), TwoPayouts(a, Processing, PayoutStatus.Pending)),
      Db(OneReward(a, Approved), TwoPayouts(a, Processing, Processing)),
      Db(OneReward(a, RewardStatus.Paid), TwoPayouts(a, PayoutStatus.Paid, Processing)),
      Db(OneReward(a, RewardStatus.Paid), TwoPayouts(a, PayoutStatus.Paid, PayoutStatus.Paid))],
     [WorkerJob(TABLES, 0, {ANA_AT_ACME}), Confirm(FIRST, ACME), WorkerJob(TABLES, 0, {ANA_AT_ACME}), Confirm(SECOND, ACME),
      MarkPaid(FIRST, ACME), MarkPaid(SECOND, ACME)])
  }

  lemma {:induction false} DoubleJob(a: int, s: Db, t: Db, id: Id)
    requires s.rewards == t.rewards == OneReward(a, Approved)
    requires id !in s.payouts && t.payouts == s.payouts[id := PayoutOfSale(a, PayoutStatus.Pending)]
    requires !HasPending(s, ANA_AT_ACME)
    ensures Next(s, WorkerJob(TABLES, 0, {ANA_AT_ACME}), t)
  {
    var eligible := WorkerEligible(s, TABLES, 0);
    assert SALE in eligible && OwnerOf(s.rewards[SALE]) == ANA_AT_ACME;
    assert ANA_AT_ACME in Groups(s, eligible);
    assert ANA_AT_ACME in WorkerOpens(s, TABLES, 0);
    var p := t.payouts[id];
    assert Elements(p.rewardIds) == {SALE} == Group(s, eligible, ANA_AT_ACME);
    assert p.rewardIds[..0] == [];
    assert SumSeq(AmountFn(s.rewards), p.rewardIds) == a;
    assert NewPayoutOf(s, t, ANA_AT_ACME);
  }

  lemma {:induction false} DoubleConfirm(s: Db, id: Id, a: int)
    requires id in s.payouts && s.payouts[id] == PayoutOfSale(a, PayoutStatus.Pending)
    ensures ConfirmStep(s, id, ACME) == s.(payouts := s.payouts[id := PayoutOfSale(a, Processing)])
  {
  }

  lemma {:induction false} DoubleJobs(a: int, i: nat)
    requires i == 0 || i == 2
    ensures var (ss, steps) := DoubleRun(a); Next(ss[i], steps[i], ss[i + 1])
  {
    var (ss, steps) := DoubleRun(a);
    DoubleJob(a, ss[i], ss[i + 1], if i == 0 then FIRST else SECOND);
  }

  lemma {:induction false} DoubleConfirms(a: int, i: nat)
    requires i == 1 || i == 3
    ensures var (ss, steps) := DoubleRun(a); Next(ss[i], steps[i], ss[i + 1])
  {
    var (ss, steps) := DoubleRun(a);
    var id := if i == 1 then FIRST else SECOND;
    DoubleConfirm(ss[i], id, a);
    assert ss[i].payouts[id := PayoutOfSale(a, Processing)] == ss[i + 1].payouts;
  }

  lemma {:induction false} DoublePays(a: int, i: nat)
    requires i == 4 || i == 5
    ensures var (ss, steps) := DoubleRun(a); Next(ss[i], steps[i], ss[i + 1])
  {
    var (ss, steps) := DoubleRun(a);
    var id := if i == 4 then FIRST else SECOND;
    DoublePaid(ss[i], id, a);
    assert ss[i].payouts[id := PayoutOfSale(a, PayoutStatus.Paid)] == ss[i + 1].payouts;
  }

  lemma {:induction false} DoubleUnsafe(a: int)
    ensures var (ss, steps) := DoubleRun(a); !JobSafe(ss[2], steps[2])
  {
    var (ss, steps) := DoubleRun(a);
    assert SALE in Group(ss[2], steps[2].Eligible(ss[2]), ANA_AT_ACME);
    assert ss[2].payouts[FIRST].status == Processing && SALE in ss[2].payouts[FIRST].rewardIds;
    assert InProcessing(ss[2], SALE);
  }

  /** Without the guard a partner is sent twice what its rewards are worth. */
  lemma {:induction false} UnguardedJobPaysTwice(a: int)
    ensures var (ss, steps) := DoubleRun(a);
            && IsRun(ss, steps)
            && !JobSafe(ss[2], steps[2])
            && RewardTotal(ss[6], ANA_AT_ACME) == a
            && PayoutTotal(ss[6], ANA_AT_ACME) == 2 * a
  {
    var (ss, steps) := DoubleRun(a);
    forall i | 0 <= i < |steps| ensures Next(ss[i], steps[i], ss[i + 1]) {
      if i < 4 && i % 2 == 0 {
        DoubleJobs(a, i);
      } else if i < 4 {
        DoubleConfirms(a, i);
      } else {
        DoublePays(a, i);
      }
    }
    DoubleUnsafe(a);
    DoubleTotals(ss[6], a);
  }

  lemma {:induction false} DoublePaid(s: Db, id: Id, a: int)
    requires id in s.payouts && s.payouts[id] == PayoutOfSale(a, Processing)
    requires s.rewards == OneReward(a, Approved) || s.rewards == OneReward(a, RewardStatus.Paid)
    ensures PaidStep(s, id, ACME) == Db(OneReward(a, RewardStatus.Paid), s.payouts[id := PayoutOfSale(a, PayoutStatus.Paid)])
  {
  }

  lemma {:induction false} DoubleTotals(s: Db, a: int)
    requires s == Db(OneReward(a, RewardStatus.Paid), TwoPayouts(a, PayoutStatus.Paid, PayoutStatus.Paid))
    ensures RewardTotal(s, ANA_AT_ACME) == a && PayoutTotal(s, ANA_AT_ACME) == 2 * a
  {
    assert PaidRewards(s, ANA_AT_ACME) == {SALE};
    assert PaidPayouts(s, ANA_AT_ACME) == {FIRST, SECOND};
    SumRemove(AmountFn(s.rewards), {SALE}, SALE);
    SumRemove(PayoutAmountFn(s.payouts), {FIRST, SECOND}, FIRST);
    assert {FIRST, SECOND} - {FIRST} == {SECOND};
    SumRemove(PayoutAmountFn(s.payouts), {SECOND}, SECOND);
  }

  // ----- Statuses that come back -----

  lemma {:induction false} RunExtends(ss: seq<Db>, steps: seq<Step>, step: Step, t: Db)
    requires IsRun(ss, steps) && Next(ss[|steps|], step, t)
    ensures IsRun(ss + [t], steps + [step])
  {
    var ss', steps' := ss + [t], steps + [step];
    forall i | 0 <= i < |steps'| ensures Next(ss'[i], steps'[i], ss'[i + 1]) {
      if i < |steps| {
        assert Next(ss[i], steps[i], ss[i + 1]);
      }
    }
  }

  lemma {:induction false} RunStops(ss: seq<Db>, steps: seq<Step>, n: nat)
    requires IsRun(ss, steps) && n < |ss|
    ensures IsRun(ss[..n + 1], steps[..n])
  {
    forall i | 0 <= i < n ensures Next(ss[..n + 1][i], steps[..n][i], ss[..n + 1][i + 1]) {
      assert Next(ss[i], steps[i], ss[i + 1]);
    }
  }

  /** A reward and its payout, FIRST. */
  function Both(a: int, reward: RewardStatus, payout: PayoutStatus): Db {
    Db(OneReward(a, reward), map[FIRST := PayoutOfSale(a, payout)])
  }

  /** Insert, approve, run the job, reject: the reward is rejected inside a pending payout. */
  lemma {:induction false} RejectedInPending(a: int) returns (ss: seq<Db>, steps: seq<Step>)
    ensures IsRun(ss, steps) && |steps| == 4 && ss[0] == Db(map[], map[])
    ensures ss[4] == Both(a, Rejected, PayoutStatus.Pending)
  {
    var created := Reward(ACME, ANA, PLAN, a, RewardStatus.Pending, None);
    var approved := Db(OneReward(a, Approved), map[]);
    ss, steps := [Db(map[], map[])], [];
    RunExtends(ss, steps, Insert(SALE, created), Db(map[SALE := created], map[]));
    ss, steps := ss + [Db(map[SALE := created], map[])], steps + [Insert(SALE, created)];
    RunExtends(ss, steps, Approve(SALE, ACME, 0), approved);
    ss, steps := ss + [approved], steps + [Approve(SALE, ACME, 0)];
    DoubleJob(a, approved, Both(a, Approved, PayoutStatus.Pending), FIRST);
    RunExtends(ss, steps, WorkerJob(TABLES, 0, {ANA_AT_ACME}), Both(a, Approved, PayoutStatus.Pending));
    ss, steps := ss + [Both(a, Approved, PayoutStatus.Pending)], steps + [WorkerJob(TABLES, 0, {ANA_AT_ACME})];
    RunExtends(ss, steps, Reject(SALE, ACME), Both(a, Rejected, PayoutStatus.Pending));
    ss, steps := ss + [Both(a, Rejected, PayoutStatus.Pending)], steps + [Reject(SALE, ACME)];
  }

  lemma {:induction false} CancelBringsBack(a: int, reward: RewardStatus, payout: PayoutStatus)
    requires payout in {PayoutStatus.Pending, Processing}
    ensures Next(Both(a, reward, payout), Cancel(FIRST, ACME), Both(a, Approved, PayoutStatus.Cancelled))
  {
    assert Within(Both(a, reward, payout), [SALE], ACME) == {SALE};
  }

  /** Cancelling the payout approves the rejected reward again. */
  lemma {:induction false} RejectedComesBack(a: int) returns (ss: seq<Db>, steps: seq<Step>)
    ensures IsRun(ss, steps) && |steps| == 5 && ss[0] == Db(map[], map[])
    ensures IsRejected(ss[4], SALE) && steps[4] == Cancel(FIRST, ACME)
    ensures ss[5].rewards == OneReward(a, Approved)
  {
    ss, steps := RejectedInPending(a);
    CancelBringsBack(a, Rejected, PayoutStatus.Pending);
    RunExtends(ss, steps, Cancel(FIRST, ACME), Both(a, Approved, PayoutStatus.Cancelled));
    ss, steps := ss + [Both(a, Approved, PayoutStatus.Cancelled)], steps + [Cancel(FIRST, ACME)];
  }

  /** Confirming and paying it pays the rejected reward. */
  lemma {:induction false} RejectedIsPaid(a: int) returns (ss: seq<Db>, steps: seq<Step>)
    ensures IsRun(ss, steps) && |steps| == 6 && ss[0] == Db(map[], map[])
    ensures IsRejected(ss[4], SALE) && IsRejected(ss[5], SALE) && IsPaid(ss[6], SALE)
    ensures PayoutTotal(ss[6], ANA_AT_ACME) == a
  {
    ss, steps := RejectedInPending(a);
    var processing, paid := Both(a, Rejected, Processing), Both(a, RewardStatus.Paid, PayoutStatus.Paid);
    DoubleConfirm(ss[4], FIRST, a);
    RunExtends(ss, steps, Confirm(FIRST, ACME), processing);
    ss, steps := ss + [processing], steps + [Confirm(FIRST, ACME)];
    assert Within(processing, [SALE], ACME) == {SALE};
    RunExtends(ss, steps, MarkPaid(FIRST, ACME), paid);
    ss, steps := ss + [paid], steps + [MarkPaid(FIRST, ACME)];
    assert PaidPayouts(paid, ANA_AT_ACME) == {FIRST};
    SumRemove(PayoutAmountFn(paid.payouts), {FIRST}, FIRST);
  }

  lemma {:induction false} PaidOnce(a: int) returns (ss: seq<Db>, steps: seq<Step>)
    ensures IsRun(ss, steps) && |steps| == 5 && ss[5] == DoubleRun(a).0[5]
  {
    UnguardedJobPaysTwice(a);
    var (all, allSteps) := DoubleRun(a);
    RunStops(all, allSteps, 5);
    ss, steps := all[..6], allSteps[..5];
  }

  /** A reward paid through one payout is approved again when a second payout of it is cancelled. */
  lemma {:induction false} PaidComesBack(a: int) returns (ss: seq<Db>, steps: seq<Step>)
    ensures IsRun(ss, steps) && |steps| == 6
    ensures IsPaid(ss[5], SALE) && steps[5] == Cancel(SECOND, ACME)
    ensures ss[6].rewards == OneReward(a, Approved) && InPaidPayout(ss[6], SALE)
  {
    ss, steps := PaidOnce(a);
    var s := ss[5];
    var t := Db(OneReward(a, Approved), s.payouts[SECOND := PayoutOfSale(a, PayoutStatus.Cancelled)]);
    assert Within(s, [SALE], ACME) == {SALE};
    assert CancelStep(s, SECOND, ACME) == t;
    RunExtends(ss, steps, Cancel(SECOND, ACME), t);
    ss, steps := ss + [t], steps + [Cancel(SECOND, ACME)];
    assert t.payouts[FIRST].status == PayoutStatus.Paid && SALE in t.payouts[FIRST].rewardIds;
  }

  // ----- One partner without a Pix key stops the job for all -----

  const BIA := Id(4)
  const OTHER_SALE := Id(8)

  function TwoRewards(a: int): map<Id, Reward> {
    OneReward(a, Approved)[OTHER_SALE := Reward(ACME, BIA, PLAN, a, Approved, Some(0))]
  }

  function WithNullPix(): Env {
    TABLES.(partners := TABLES.partners[BIA := Partner(ACME, PLAN, None, None)])
  }

  /** ANA has a Pix key and is due, yet the job opens nothing: BIA's key is NULL. */
  lemma {:induction false} NullPixStopsAll(a: int)
    ensures var db := Db(TwoRewards(a), map[]);
            && ANA_AT_ACME in DescribedOpens(db, WithNullPix(), 0)
            && !ScansCleanly(db, WithNullPix(), WorkerEligible(db, WithNullPix(), 0))
            && WorkerOpens(db, WithNullPix(), 0) == {}
  {
    var db, env := Db(TwoRewards(a), map[]), WithNullPix();
    assert SALE in WorkerEligible(db, env, 0) && OTHER_SALE in WorkerEligible(db, env, 0);
    assert OwnerOf(db.rewards[SALE]) == ANA_AT_ACME;
    assert ANA_AT_ACME in Groups(db, WorkerEligible(db, env, 0));
    assert db.rewards[OTHER_SALE].partner == BIA && env.partners[BIA].pixKey.None?;
  }

  method NullPixFailsRun(a: int) returns (ok: bool, created: nat)
    ensures !ok && created == 0
  {
    NullPixStopsAll(a);
    var env := WithNullPix();
    var database := new Database(TwoRewards(a), map[], env.partners, env.programs);
    ok, created := database.RunCreatePayoutsJob(0, {});
  }
}
