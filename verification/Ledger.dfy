/** Rewards and payouts as the database holds them, and what each handler or job does to them
    as one atomic step. */
module Ledger {
  import opened Common
  import opened FiniteSums

  datatype RewardStatus = Pending | Approved | Rejected | Cancelled | Paid

  datatype PayoutStatus = Pending | Processing | Paid | Failed | Cancelled

  /** `Pix` is what both jobs write; the other methods of the column are alike here. */
  datatype Method = Pix | OtherMethod

  datatype Reward = Reward(tenant: Id, partner: Id, program: Id, amountCents: int,
                           status: RewardStatus, approvedAt: Option<int>)

  datatype Payout = Payout(tenant: Id, partner: Id, rewardIds: seq<Id>, amountCents: int, via: Method,
                           status: PayoutStatus, pixKey: string, pixKeyType: string, attempts: nat)
  {
    function Owner(): Key {
      Key(partner, tenant)
    }

    predicate Open() {
      status == PayoutStatus.Pending || status == Processing
    }
  }

  datatype Partner = Partner(tenant: Id, program: Id, pixKey: Option<string>, pixKeyType: Option<string>)

  datatype Program = Program(holdDays: Option<int>)

  /** A partner within a tenant: the unit that payouts are made to. */
  datatype Key = Key(partner: Id, tenant: Id)

  datatype Db = Db(rewards: map<Id, Reward>, payouts: map<Id, Payout>)

  /** The tables the jobs only read. */
  datatype Env = Env(partners: map<Id, Partner>, programs: map<Id, Program>)

  const DEFAULT_HOLD_DAYS := 7
  const DAY_MILLIS := 86_400_000

  function OwnerOf(r: Reward): Key {
    Key(r.partner, r.tenant)
  }

  function AmountFn(rewards: map<Id, Reward>): Id -> int {
    id => if id in rewards then rewards[id].amountCents else 0
  }

  // ----- Reward handlers -----

  function ApproveStep(db: Db, id: Id, tenant: Id, now: int): Db {
    if id in db.rewards && db.rewards[id].tenant == tenant && db.rewards[id].status == RewardStatus.Pending
    then db.(rewards := db.rewards[id := db.rewards[id].(status := Approved, approvedAt := Some(now))])
    else db
  }

  function RejectStep(db: Db, id: Id, tenant: Id): Db {
    if && id in db.rewards && db.rewards[id].tenant == tenant
       && (db.rewards[id].status == RewardStatus.Pending || db.rewards[id].status == Approved)
    then db.(rewards := db.rewards[id := db.rewards[id].(status := Rejected)])
    else db
  }

  // ----- Payout handlers and the Pix worker -----

  /** The rewards table after one UPDATE that gives `status` to the rows in `ids`. */
  function WithStatus(rewards: map<Id, Reward>, ids: set<Id>, status: RewardStatus): map<Id, Reward> {
    map id | id in rewards :: if id in ids then rewards[id].(status := status) else rewards[id]
  }

  /** The listed rewards that belong to a tenant. */
  function Within(db: Db, ids: seq<Id>, tenant: Id): set<Id> {
    set id | id in ids && id in db.rewards && db.rewards[id].tenant == tenant
  }

  predicate Owns(db: Db, id: Id, tenant: Id) {
    id in db.payouts && db.payouts[id].tenant == tenant
  }

  function ConfirmStep(db: Db, id: Id, tenant: Id): Db {
    if Owns(db, id, tenant) && db.payouts[id].status == PayoutStatus.Pending
    then db.(payouts := db.payouts[id := db.payouts[id].(status := Processing)])
    else db
  }

  function PaidStep(db: Db, id: Id, tenant: Id): Db {
    if Owns(db, id, tenant) && db.payouts[id].status == Processing
    then Db(WithStatus(db.rewards, Within(db, db.payouts[id].rewardIds, tenant), RewardStatus.Paid),
            db.payouts[id := db.payouts[id].(status := PayoutStatus.Paid)])
    else db
  }

  function CancelStep(db: Db, id: Id, tenant: Id): Db {
    if Owns(db, id, tenant) && db.payouts[id].Open()
    then Db(WithStatus(db.rewards, Within(db, db.payouts[id].rewardIds, tenant), Approved),
            db.payouts[id := db.payouts[id].(status := PayoutStatus.Cancelled)])
    else db
  }

  function ProcessStep(db: Db, id: Id, transferOk: bool): Db {
    if id !in db.payouts || !db.payouts[id].Open() then db
    else
      var p := db.payouts[id].(attempts := db.payouts[id].attempts + 1);
      if p.via != Pix then db.(payouts := db.payouts[id := p.(status := PayoutStatus.Pending)])
      else if !transferOk then db.(payouts := db.payouts[id := p.(status := Failed)])
      else Db(WithStatus(db.rewards, Elements(p.rewardIds), RewardStatus.Paid), db.payouts[id := p.(status := PayoutStatus.Paid)])
  }

  // ----- The two payout jobs -----

  predicate HoldOver(r: Reward, program: Program, now: int) {
    && r.approvedAt.Some?
    && r.approvedAt.value
       + (if program.holdDays.Some? then program.holdDays.value else DEFAULT_HOLD_DAYS) * DAY_MILLIS <= now
  }

  /** The rows the worker job selects: it reaches the program through the partner. */
  predicate WorkerSelects(r: Reward, env: Env, now: int) {
    && r.status == Approved
    && r.partner in env.partners
    && env.partners[r.partner].program in env.programs
    && HoldOver(r, env.programs[env.partners[r.partner].program], now)
  }

  function WorkerEligible(db: Db, env: Env, now: int): set<Id> {
    set id | id in db.rewards && WorkerSelects(db.rewards[id], env, now)
  }

  /** The rows the handler job selects for one tenant: it reaches the program through the reward,
      and wants the partner in that tenant and with a Pix key. */
  predicate HandlerSelects(r: Reward, env: Env, tenant: Id, now: int) {
    && r.tenant == tenant
    && r.status == Approved
    && r.partner in env.partners
    && env.partners[r.partner].tenant == tenant
    && env.partners[r.partner].pixKey.Some? && env.partners[r.partner].pixKey.value != ""
    && r.program in env.programs
    && HoldOver(r, env.programs[r.program], now)
  }

  function HandlerEligible(db: Db, env: Env, tenant: Id, now: int): set<Id> {
    set id | id in db.rewards && HandlerSelects(db.rewards[id], env, tenant, now)
  }

  function Group(db: Db, eligible: set<Id>, k: Key): set<Id> {
    set id | id in eligible && id in db.rewards && OwnerOf(db.rewards[id]) == k
  }

  function Groups(db: Db, eligible: set<Id>): set<Key> {
    set id | id in eligible && id in db.rewards :: OwnerOf(db.rewards[id])
  }

  predicate HasPending(db: Db, k: Key) {
    exists id :: id in db.payouts && db.payouts[id].Owner() == k && db.payouts[id].status == PayoutStatus.Pending
  }

  /** The worker job scans both Pix columns into plain strings, so one NULL aborts the run. */
  predicate ScansCleanly(db: Db, env: Env, eligible: set<Id>) {
    forall id :: id in eligible && id in db.rewards && db.rewards[id].partner in env.partners ==>
                   var pa := env.partners[db.rewards[id].partner];
                   pa.pixKey.Some? && pa.pixKeyType.Some?
  }

  /** The groups the worker job opens a payout for, if no statement fails. */
  function WorkerOpens(db: Db, env: Env, now: int): set<Key> {
    var eligible := WorkerEligible(db, env, now);
    if ScansCleanly(db, env, eligible) then
      set k | k in Groups(db, eligible) && k.partner in env.partners
              && env.partners[k.partner].pixKey != Some("") && !HasPending(db, k)
    else {}
  }

  /** The same for the handler job of one tenant; a NULL key type only skips its group. */
  function HandlerOpens(db: Db, env: Env, tenant: Id, now: int): set<Key> {
    set k | k in Groups(db, HandlerEligible(db, env, tenant, now)) && k.partner in env.partners
            && env.partners[k.partner].pixKeyType.Some? && !HasPending(db, k)
  }

  /** A payout as a job writes it: the whole group of its owner, each reward once, for their sum. */
  predicate PayoutFor(db: Db, env: Env, eligible: set<Id>, p: Payout) {
    && p.status == PayoutStatus.Pending && p.via == Pix && p.attempts == 0
    && Distinct(p.rewardIds)
    && Elements(p.rewardIds) == Group(db, eligible, p.Owner())
    && p.amountCents == SumSeq(AmountFn(db.rewards), p.rewardIds)
    && p.partner in env.partners
    && env.partners[p.partner].pixKey == Some(p.pixKey)
    && env.partners[p.partner].pixKeyType == Some(p.pixKeyType)
  }

  /** What a run of either job may leave: everything old as it was, and exactly one new payout
      for each key in `keys`, under ids nobody used. */
  ghost predicate Opens(db: Db, db': Db, env: Env, eligible: set<Id>, keys: set<Key>) {
    && db'.rewards == db.rewards
    && (forall id :: id in db.payouts ==> id in db'.payouts && db'.payouts[id] == db.payouts[id])
    && (forall id :: id in db'.payouts && id !in db.payouts ==>
                       PayoutFor(db, env, eligible, db'.payouts[id]) && db'.payouts[id].Owner() in keys)
    && (forall i, j :: i in db'.payouts && i !in db.payouts && j in db'.payouts && j !in db.payouts && i != j ==>
                         db'.payouts[i].Owner() != db'.payouts[j].Owner())
    && (forall k :: k in keys ==> NewPayoutOf(db, db', k))
  }

  ghost predicate NewPayoutOf(db: Db, db': Db, k: Key) {
    exists id :: id in db'.payouts && id !in db.payouts && db'.payouts[id].Owner() == k
  }
}
