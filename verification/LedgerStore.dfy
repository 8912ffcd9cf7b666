/** The handlers and jobs themselves, statement by statement, on tables they update in place. */
module LedgerStore {
  import opened Common
  import opened FiniteSums
  import opened Ledger

  /** A row of the worker job's query. */
  datatype EligibleReward = EligibleReward(rewardId: Id, partner: Id, tenant: Id, amountCents: int,
                                           pixKey: string, pixKeyType: string)

  datatype PartnerInfo = PartnerInfo(pixKey: string, pixKeyType: string, rewards: seq<EligibleReward>, totalCents: int)

  datatype ConfirmResult = Confirmed | AlreadyConfirmed(status: PayoutStatus) | NotPending
  datatype PaidResult = MarkedPaid | AlreadyPaid | NotProcessing

  function RowKey(row: EligibleReward): Key {
    Key(row.partner, row.tenant)
  }

  function RowAmount(): EligibleReward -> int {
    (row: EligibleReward) => row.amountCents
  }

  /** The rows of one key, in query order. */
  function RowsOf(rows: seq<EligibleReward>, k: Key): seq<EligibleReward> {
    if rows == [] then []
    else
      var front, row := rows[..|rows| - 1], rows[|rows| - 1];
      RowsOf(front, k) + if RowKey(row) == k then [row] else []
  }

  function RowKeys(rows: seq<EligibleReward>): set<Key> {
    set row | row in rows :: RowKey(row)
  }

  function RewardIdsOf(rows: seq<EligibleReward>): seq<Id> {
    seq(|rows|, i requires 0 <= i < |rows| => rows[i].rewardId)
  }

  /** What the grouping loop must hold for a key: its rows in order, their sum, and the Pix data
      of the first one. */
  ghost predicate Collected(rows: seq<EligibleReward>, k: Key, info: PartnerInfo) {
    && info.rewards == RowsOf(rows, k) != []
    && info.totalCents == SumSeq(RowAmount(), RowsOf(rows, k))
    && info.pixKey == info.rewards[0].pixKey
    && info.pixKeyType == info.rewards[0].pixKeyType
  }

  lemma {:induction false} RowsOfAppend(rows: seq<EligibleReward>, row: EligibleReward, k: Key)
    ensures RowsOf(rows + [row], k) == RowsOf(rows, k) + if RowKey(row) == k then [row] else []
    ensures SumSeq(RowAmount(), rows + [row]) == SumSeq(RowAmount(), rows) + row.amountCents
  {
  }

  /** Exactly the keys seen, each with all its rows. */
  ghost predicate GroupedBy(rows: seq<EligibleReward>, grouped: map<Key, PartnerInfo>) {
    && grouped.Keys == RowKeys(rows)
    && forall k :: k in grouped ==> Collected(rows, k, grouped[k])
  }

  lemma {:induction false} NoRows(rows: seq<EligibleReward>, k: Key)
    requires k !in RowKeys(rows)
    ensures RowsOf(rows, k) == []
  {
    if rows != [] {
      var front := rows[..|rows| - 1];
      assert rows == front + [rows[|front|]];
      NoRows(front, k);
    }
  }

  /** The information of a key after one more of its rows. */
  function WithRow(was: Option<PartnerInfo>, row: EligibleReward): PartnerInfo {
    var info := if was.Some? then was.value else PartnerInfo(row.pixKey, row.pixKeyType, [], 0);
    info.(rewards := info.rewards + [row], totalCents := info.totalCents + row.amountCents)
  }

  lemma {:induction false} FirstCollected(rows: seq<EligibleReward>, row: EligibleReward)
    requires RowKey(row) !in RowKeys(rows)
    ensures Collected(rows + [row], RowKey(row), WithRow(None, row))
  {
    NoRows(rows, RowKey(row));
    RowsOfAppend(rows, row, RowKey(row));
    RowsOfAppend([], row, RowKey(row));
    assert [] + [row] == [row];
  }

  lemma {:induction false} NextCollected(rows: seq<EligibleReward>, row: EligibleReward, info: PartnerInfo)
    requires Collected(rows, RowKey(row), info)
    ensures Collected(rows + [row], RowKey(row), WithRow(Some(info), row))
  {
  }

  lemma {:induction false} OthersCollected(rows: seq<EligibleReward>, row: EligibleReward, k: Key, info: PartnerInfo)
    requires Collected(rows, k, info) && k != RowKey(row)
    ensures Collected(rows + [row], k, info)
  {
  }

  lemma {:induction false} GroupOneMore(rows: seq<EligibleReward>, row: EligibleReward,
                                        grouped: map<Key, PartnerInfo>, info: PartnerInfo)
    requires GroupedBy(rows, grouped)
    requires info == WithRow(if RowKey(row) in grouped then Some(grouped[RowKey(row)]) else None, row)
    ensures GroupedBy(rows + [row], grouped[RowKey(row) := info])
  {
    var key, after := RowKey(row), grouped[RowKey(row) := info];
    RowKeysAppend(rows, row);
    assert after.Keys == RowKeys(rows + [row]);
    if key in grouped {
      NextCollected(rows, row, grouped[key]);
    } else {
      FirstCollected(rows, row);
    }
    forall k | k in after && k != key ensures Collected(rows + [row], k, after[k]) {
      OthersCollected(rows, row, k, grouped[k]);
    }
  }

  /** Groups the rows by partner and tenant. */
  method GroupByPartner(rows: seq<EligibleReward>) returns (grouped: map<Key, PartnerInfo>)
    ensures GroupedBy(rows, grouped)
  {
    grouped := map[];
    var i := 0;
    assert rows[..0] == [];
    while i < |rows|
      invariant 0 <= i <= |rows|
      invariant GroupedBy(rows[..i], grouped)
    {
      var row := rows[i];
      var key := RowKey(row);
      var info := PartnerInfo(row.pixKey, row.pixKeyType, [], 0);
      if key in grouped {
        info := grouped[key];
      }
      info := info.(rewards := info.rewards + [row], totalCents := info.totalCents + row.amountCents);
      assert info == WithRow(if key in grouped then Some(grouped[key]) else None, row);
      ghost var seen := rows[..i];
      GroupOneMore(seen, row, grouped, info);
      grouped := grouped[key := info];
      i := i + 1;
      assert rows[..i] == seen + [row];
    }
    assert rows[..i] == rows;
  }

  function InfoTotal(grouped: map<Key, PartnerInfo>): Key -> int {
    k => if k in grouped then grouped[k].totalCents else 0
  }

  /** No cent is lost or counted twice by grouping: the totals of the groups add up to the total
      of the rows. */
  lemma {:induction false} GroupTotalsAddUp(rows: seq<EligibleReward>, grouped: map<Key, PartnerInfo>)
    requires GroupedBy(rows, grouped)
    ensures SumOver(InfoTotal(grouped), grouped.Keys) == SumSeq(RowAmount(), rows)
  {
    TotalsByKey(rows, grouped.Keys);
    SumOverCongruent(InfoTotal(grouped), KeyTotal(rows), grouped.Keys);
  }

  function KeyTotal(rows: seq<EligibleReward>): Key -> int {
    k => SumSeq(RowAmount(), RowsOf(rows, k))
  }

  lemma {:induction false} TotalsByKey(rows: seq<EligibleReward>, keys: set<Key>)
    requires RowKeys(rows) <= keys
    ensures SumOver(KeyTotal(rows), keys) == SumSeq(RowAmount(), rows)
  {
    if rows == [] {
      NoTotals(keys);
    } else {
      var front, row := rows[..|rows| - 1], rows[|rows| - 1];
      assert rows == front + [row];
      RowKeysAppend(front, row);
      TotalsByKey(front, keys);
      TotalsOneMore(front, row, keys);
    }
  }

  lemma {:induction false} NoTotals(keys: set<Key>)
    ensures SumOver(KeyTotal([]), keys) == 0
  {
    forall k | k in keys ensures KeyTotal([])(k) == 0 {
      NoRows([], k);
    }
    SumZero(KeyTotal([]), keys);
  }

  lemma {:induction false} RowKeysAppend(rows: seq<EligibleReward>, row: EligibleReward)
    ensures RowKeys(rows + [row]) == RowKeys(rows) + {RowKey(row)}
  {
  }

  lemma {:induction false} TotalsOneMore(rows: seq<EligibleReward>, row: EligibleReward, keys: set<Key>)
    requires RowKey(row) in keys && SumOver(KeyTotal(rows), keys) == SumSeq(RowAmount(), rows)
    ensures SumOver(KeyTotal(rows + [row]), keys) == SumSeq(RowAmount(), rows + [row])
  {
    var key, before, after := RowKey(row), KeyTotal(rows), KeyTotal(rows + [row]);
    forall k | k in keys - {key} ensures after(k) == before(k) {
      KeyTotalAppend(rows, row, k);
    }
    KeyTotalAppend(rows, row, key);
    SumRemove(after, keys, key);
    SumRemove(before, keys, key);
    SumOverCongruent(after, before, keys - {key});
    RowsOfAppend(rows, row, key);
  }

  lemma {:induction false} KeyTotalAppend(rows: seq<EligibleReward>, row: EligibleReward, k: Key)
    ensures KeyTotal(rows + [row])(k) == KeyTotal(rows)(k) + if k == RowKey(row) then row.amountCents else 0
  {
    RowsOfAppend(rows, row, k);
    RowsOfAppend(RowsOf(rows, k), row, k);
    assert RowsOf(rows, k) + [] == RowsOf(rows, k);
  }

  /** A payout as both jobs insert it. */
  function PendingPayout(k: Key, rewardIds: seq<Id>, amountCents: int, pixKey: string, pixKeyType: string): Payout {
    Payout(k.tenant, k.partner, rewardIds, amountCents, Pix, PayoutStatus.Pending, pixKey, pixKeyType, 0)
  }

  class Database {
    var rewards: map<Id, Reward>
    var payouts: map<Id, Payout>
    var partners: map<Id, Partner>
    var programs: map<Id, Program>

    constructor (rewards: map<Id, Reward>, payouts: map<Id, Payout>, partners: map<Id, Partner>, programs: map<Id, Program>)
      ensures View() == Db(rewards, payouts) && Tables() == Env(partners, programs)
    {
      this.rewards, this.payouts, this.partners, this.programs := rewards, payouts, partners, programs;
    }

    function View(): Db
      reads this
    {
      Db(rewards, payouts)
    }

    function Tables(): Env
      reads this
    {
      Env(partners, programs)
    }

    method Approve(id: Id, tenant: Id, now: int) returns (ok: bool)
      modifies this`rewards
      ensures View() == ApproveStep(old(View()), id, tenant, now)
      ensures ok <==> View() != old(View())
    {
      ok := id in rewards && rewards[id].tenant == tenant && rewards[id].status == RewardStatus.Pending;
      if ok {
        ghost var was := rewards[id];
        rewards := rewards[id := rewards[id].(status := Approved, approvedAt := Some(now))];
        assert rewards[id] != was;
      }
    }

    method Reject(id: Id, tenant: Id) returns (ok: bool)
      modifies this`rewards
      ensures View() == RejectStep(old(View()), id, tenant)
      ensures ok <==> View() != old(View())
    {
      ok := id in rewards && rewards[id].tenant == tenant && rewards[id].status in {RewardStatus.Pending, Approved};
      if ok {
        ghost var was := rewards[id];
        rewards := rewards[id := rewards[id].(status := Rejected)];
        assert rewards[id] != was;
      }
    }

    method Confirm(id: Id, tenant: Id) returns (r: ConfirmResult)
      modifies this`payouts
      ensures View() == ConfirmStep(old(View()), id, tenant)
      ensures r == Confirmed <==> View() != old(View())
      ensures r.AlreadyConfirmed? <==> Owns(old(View()), id, tenant) && old(payouts[id].status) in {Processing, PayoutStatus.Paid}
      ensures r.AlreadyConfirmed? ==> r.status == payouts[id].status
    {
      if id in payouts && payouts[id].tenant == tenant && payouts[id].status == PayoutStatus.Pending {
        ghost var was := payouts[id];
        payouts := payouts[id := payouts[id].(status := Processing)];
        assert payouts[id] != was;
        return Confirmed;
      }
      if id in payouts && payouts[id].tenant == tenant {
        var current := payouts[id].status;
        if current == Processing || current == PayoutStatus.Paid {
          return AlreadyConfirmed(current);
        }
      }
      return NotPending;
    }

    method MarkPaid(id: Id, tenant: Id) returns (r: PaidResult)
      modifies this`rewards, this`payouts
      ensures View() == PaidStep(old(View()), id, tenant)
      ensures r == MarkedPaid <==> View() != old(View())
      ensures r == AlreadyPaid <==> Owns(old(View()), id, tenant) && old(payouts[id].status) == PayoutStatus.Paid
    {
      if id in payouts && payouts[id].tenant == tenant && payouts[id].status == Processing {
        ghost var was := payouts[id];
        payouts := payouts[id := payouts[id].(status := PayoutStatus.Paid)];
        assert payouts[id] != was;
        UpdateRewards(Within(View(), payouts[id].rewardIds, tenant), RewardStatus.Paid);
        return MarkedPaid;
      }
      if id in payouts && payouts[id].tenant == tenant && payouts[id].status == PayoutStatus.Paid {
        return AlreadyPaid;
      }
      return NotProcessing;
    }

    method Cancel(id: Id, tenant: Id) returns (ok: bool)
      modifies this`rewards, this`payouts
      ensures View() == CancelStep(old(View()), id, tenant)
      ensures ok <==> View() != old(View())
    {
      ok := id in payouts && payouts[id].tenant == tenant && payouts[id].status in {PayoutStatus.Pending, Processing};
      if ok {
        ghost var was := payouts[id];
        payouts := payouts[id := payouts[id].(status := PayoutStatus.Cancelled)];
        assert payouts[id] != was;
        UpdateRewards(Within(View(), payouts[id].rewardIds, tenant), Approved);
      }
    }

    method UpdateRewards(ids: set<Id>, status: RewardStatus)
      modifies this`rewards
      ensures rewards == WithStatus(old(rewards), ids, status)
    {
      rewards := map id | id in rewards :: if id in ids then rewards[id].(status := status) else rewards[id];
    }

    /** One Pix job; `transferOk` is the gateway's answer. */
    method ProcessPayout(id: Id, transferOk: bool) returns (ok: bool)
      modifies this`rewards, this`payouts
      ensures View() == ProcessStep(old(View()), id, transferOk)
      ensures ok <==> id in old(payouts) && old(payouts[id].Open()) && (old(payouts[id].via) == Pix ==> transferOk)
    {
      if id !in payouts || payouts[id].status !in {PayoutStatus.Pending, Processing} {
        return false;
      }
      payouts := payouts[id := payouts[id].(status := Processing, attempts := payouts[id].attempts + 1)];
      if payouts[id].via == Pix {
        if !transferOk {
          payouts := payouts[id := payouts[id].(status := Failed)];
          return false;
        }
        payouts := payouts[id := payouts[id].(status := PayoutStatus.Paid)];
        UpdateRewards(Elements(payouts[id].rewardIds), RewardStatus.Paid);
      } else {
        payouts := payouts[id := payouts[id].(status := PayoutStatus.Pending)];
      }
      return true;
    }

    /** The worker job's query and scan loop.  Rows come in any order; a NULL Pix column fails. */
    method FetchEligibleRewards(now: int) returns (rows: Option<seq<EligibleReward>>)
      ensures rows.Some? <==> ScansCleanly(View(), Tables(), WorkerEligible(View(), Tables(), now))
      ensures rows.Some? ==> RowsMatch(View(), Tables(), WorkerEligible(View(), Tables(), now), rows.value)
    {
      var eligible := WorkerEligible(View(), Tables(), now);
      var left := eligible;
      var scanned: seq<EligibleReward> := [];
      while left != {}
        invariant left <= eligible
        invariant RowsMatch(View(), Tables(), eligible - left, scanned)
        invariant ScansCleanly(View(), Tables(), eligible - left)
      {
        var id :| id in left;
        var r := rewards[id];
        var pa := partners[r.partner];
        if pa.pixKey.None? || pa.pixKeyType.None? {
          return None;
        }
        assert id !in RewardIdsOf(scanned);
        var row := EligibleReward(id, r.partner, r.tenant, r.amountCents, pa.pixKey.value, pa.pixKeyType.value);
        assert RewardIdsOf(scanned + [row]) == RewardIdsOf(scanned) + [id];
        AddElement(RewardIdsOf(scanned), id);
        assert eligible - (left - {id}) == (eligible - left) + {id};
        scanned := scanned + [row];
        left := left - {id};
      }
      assert eligible - left == eligible;
      return Some(scanned);
    }

    method CheckPendingPayout(k: Key) returns (found: bool)
      ensures found == HasPending(View(), k)
    {
      found := exists id :: id in payouts && payouts[id].Owner() == k && payouts[id].status == PayoutStatus.Pending;
    }

    /** INSERT under a generated id that no row has. */
    method InsertPayout(k: Key, rewardIds: seq<Id>, amountCents: int, pixKey: string, pixKeyType: string)
      returns (id: Id)
      modifies this`payouts
      ensures id !in old(payouts)
      ensures payouts == old(payouts)[id := PendingPayout(k, rewardIds, amountCents, pixKey, pixKeyType)]
    {
      id := FreshId(payouts.Keys);
      payouts := payouts[id := PendingPayout(k, rewardIds, amountCents, pixKey, pixKeyType)];
    }

    /** One turn of either job's loop: skip the owner while a payout is pending, else insert.
        `fails` says that the check or the insert fails.  The ghost arguments tell what the job has
        done since it started on `db`. */
    method PayGroup(key: Key, rewardIds: seq<Id>, totalCents: int, pixKey: string, pixKeyType: string, fails: bool,
                    ghost db: Db, ghost env: Env, ghost eligible: set<Id>, ghost keys: set<Key>)
      returns (made: bool)
      requires Opens(db, View(), env, eligible, keys) && key !in keys
      requires GroupOk(db, env, eligible, key, rewardIds, totalCents, pixKey, pixKeyType)
      modifies this`payouts
      ensures made <==> !fails && !HasPending(db, key)
      ensures Opens(db, View(), env, eligible, if made then keys + {key} else keys)
    {
      PendingUnchanged(db, View(), env, eligible, keys, key);
      var hasPending := CheckPendingPayout(key);
      if fails || hasPending {
        return false;
      }
      ghost var before := View();
      var id := InsertPayout(key, rewardIds, totalCents, pixKey, pixKeyType);
      OpensOneMore(db, before, View(), env, eligible, keys, id);
      return true;
    }

    /** The worker job.  `failing` holds the keys whose pending check or insert fails. */
    method RunCreatePayoutsJob(now: int, failing: set<Key>) returns (ok: bool, created: nat)
      modifies this`payouts
      ensures ok <==> ScansCleanly(old(View()), Tables(), WorkerEligible(old(View()), Tables(), now))
      ensures var keys := WorkerOpens(old(View()), Tables(), now) - failing;
              && Opens(old(View()), View(), Tables(), WorkerEligible(old(View()), Tables(), now), keys)
              && created == |keys|
    {
      ghost var db, env := View(), Tables();
      ghost var eligible := WorkerEligible(db, env, now);
      var fetched := FetchEligibleRewards(now);
      if fetched.None? {
        return false, 0;
      }
      var grouped := GroupByPartner(fetched.value);
      forall k | k in grouped
        ensures GroupOk(db, env, eligible, k, RewardIdsOf(grouped[k].rewards), grouped[k].totalCents,
                        grouped[k].pixKey, grouped[k].pixKeyType)
      {
        GroupRows(db, env, eligible, fetched.value, k);
      }
      RowKeysAreGroups(db, env, eligible, fetched.value);
      ghost var target := WorkerOpens(db, env, now) - failing;
      created := PayGroups(grouped, failing, db, env, eligible, target);
      ok := true;
    }

    /** The worker job's loop over its groups, in whatever order the map yields them. */
    method PayGroups(grouped: map<Key, PartnerInfo>, failing: set<Key>,
                     ghost db: Db, ghost env: Env, ghost eligible: set<Id>, ghost target: set<Key>)
      returns (created: nat)
      requires View() == db
      requires forall k :: k in grouped ==>
                 GroupOk(db, env, eligible, k, RewardIdsOf(grouped[k].rewards), grouped[k].totalCents,
                         grouped[k].pixKey, grouped[k].pixKeyType)
      requires forall k :: k in target <==>
                 k in grouped && grouped[k].pixKey != "" && k !in failing && !HasPending(db, k)
      modifies this`payouts
      ensures Opens(db, View(), env, eligible, target)
      ensures created == |target|
    {
      created := 0;
      ghost var keys: set<Key> := {};
      var left := grouped.Keys;
      while left != {}
        invariant left <= grouped.Keys
        invariant forall k :: k in keys <==> k in target && k !in left
        invariant Opens(db, View(), env, eligible, keys)
        invariant created == |keys|
      {
        var key :| key in left;
        left := left - {key};
        var info := grouped[key];
        if info.pixKey == "" {
          continue;
        }
        var made := PayGroup(key, RewardIdsOf(info.rewards), info.totalCents, info.pixKey, info.pixKeyType,
                             key in failing, db, env, eligible, keys);
        if made {
          keys := keys + {key};
          created := created + 1;
        }
      }
      assert keys == target;
    }

    /** The handler job of one tenant, which groups and sums on its own. */
    method CreatePayoutsJob(tenant: Id, now: int, failing: set<Key>) returns (created: nat)
      modifies this`payouts
      ensures var keys := HandlerOpens(old(View()), Tables(), tenant, now) - failing;
              && Opens(old(View()), View(), Tables(), HandlerEligible(old(View()), Tables(), tenant, now), keys)
              && created == |keys|
    {
      var eligible := HandlerEligible(View(), Tables(), tenant, now);
      var partnerRewards := GroupHandlerRows(eligible);
      forall p | p in partnerRewards
        ensures HandlerGroup(View(), Tables(), eligible, Key(p, tenant), partnerRewards[p])
      {
        HandlerGroupOk(View(), Tables(), eligible, tenant, now, partnerRewards.Keys, p, partnerRewards[p]);
      }
      ghost var target := HandlerOpens(View(), Tables(), tenant, now) - failing;
      HandlerTarget(View(), Tables(), eligible, tenant, now, partnerRewards.Keys, failing, target);
      created := PayPartners(tenant, partnerRewards, failing, View(), Tables(), eligible, target);
    }

    /** The body of the handler job's loop: sum the group, read the Pix data, open the payout. */
    method PayPartner(key: Key, rewardIds: seq<Id>, fails: bool,
                      ghost db: Db, ghost env: Env, ghost eligible: set<Id>, ghost keys: set<Key>)
      returns (made: bool)
      requires rewards == db.rewards && partners == env.partners
      requires Opens(db, View(), env, eligible, keys) && key !in keys
      requires HandlerGroup(db, env, eligible, key, rewardIds)
      modifies this`payouts
      ensures made <==> !fails && env.partners[key.partner].pixKeyType.Some? && !HasPending(db, key)
      ensures Opens(db, View(), env, eligible, if made then keys + {key} else keys)
    {
      var totalCents := SumRewards(rewardIds);
      if key.partner !in partners || partners[key.partner].tenant != key.tenant
         || partners[key.partner].pixKey.None? || partners[key.partner].pixKeyType.None? {
        return false;
      }
      made := PayGroup(key, rewardIds, totalCents, partners[key.partner].pixKey.value,
                       partners[key.partner].pixKeyType.value, fails, db, env, eligible, keys);
    }

    /** The handler job's loop over its partners. */
    method PayPartners(tenant: Id, partnerRewards: map<Id, seq<Id>>, failing: set<Key>,
                       ghost db: Db, ghost env: Env, ghost eligible: set<Id>, ghost target: set<Key>)
      returns (created: nat)
      requires View() == db && Tables() == env
      requires forall p :: p in partnerRewards ==> HandlerGroup(db, env, eligible, Key(p, tenant), partnerRewards[p])
      requires forall k :: k in target <==>
                 && k.tenant == tenant && k.partner in partnerRewards && k.partner in env.partners
                 && env.partners[k.partner].pixKeyType.Some?
                 && k !in failing && !HasPending(db, k)
      modifies this`payouts
      ensures Opens(db, View(), env, eligible, target)
      ensures created == |target|
    {
      created := 0;
      ghost var keys: set<Key> := {};
      var left := partnerRewards.Keys;
      while left != {}
        invariant left <= partnerRewards.Keys
        invariant forall k :: k in keys <==> k in target && k.partner !in left
        invariant Opens(db, View(), env, eligible, keys)
        invariant created == |keys|
      {
        var partner :| partner in left;
        var key := Key(partner, tenant);
        left := left - {partner};
        assert HandlerGroup(db, env, eligible, key, partnerRewards[partner]);
        var made := PayPartner(key, partnerRewards[partner], key in failing, db, env, eligible, keys);
        if made {
          keys := keys + {key};
          created := created + 1;
        }
      }
      assert keys == target;
    }

    /** The handler's grouping loop: reward ids per partner, rows coming in any order. */
    method GroupHandlerRows(eligible: set<Id>) returns (partnerRewards: map<Id, seq<Id>>)
      requires eligible <= rewards.Keys
      ensures partnerRewards.Keys == set id | id in eligible :: rewards[id].partner
      ensures forall p :: p in partnerRewards ==>
                && Distinct(partnerRewards[p])
                && Elements(partnerRewards[p]) == set id | id in eligible && rewards[id].partner == p
    {
      partnerRewards := map[];
      var left := eligible;
      while left != {}
        invariant left <= eligible
        invariant partnerRewards.Keys == set id | id in eligible - left :: rewards[id].partner
        invariant forall p :: p in partnerRewards ==>
                    && Distinct(partnerRewards[p])
                    && Elements(partnerRewards[p]) == set id | id in eligible - left && rewards[id].partner == p
      {
        var id :| id in left;
        var p := rewards[id].partner;
        var soFar := if p in partnerRewards then partnerRewards[p] else [];
        assert Elements(soFar) == set x | x in eligible - left && rewards[x].partner == p;
        assert id !in Elements(soFar);
        ghost var was := partnerRewards;
        ghost var leftWas := left;
        partnerRewards := partnerRewards[p := soFar + [id]];
        left := left - {id};
        assert eligible - left == (eligible - leftWas) + {id};
        assert Elements(soFar + [id]) == Elements(soFar) + {id};
      }
      assert eligible - left == eligible;
    }

    method SumRewards(ids: seq<Id>) returns (totalCents: int)
      requires forall id :: id in ids ==> id in rewards
      ensures totalCents == SumSeq(AmountFn(rewards), ids)
    {
      totalCents := 0;
      var i := 0;
      while i < |ids|
        invariant 0 <= i <= |ids|
        invariant totalCents == SumSeq(AmountFn(rewards), ids[..i])
      {
        assert ids[..i + 1][..i] == ids[..i];
        totalCents := totalCents + rewards[ids[i]].amountCents;
        i := i + 1;
      }
      assert ids[..i] == ids;
    }
  }

  method FreshId(used: set<Id>) returns (id: Id)
    ensures id !in used
  {
    UnusedId(used);
    id :| id !in used;
  }

  lemma {:induction false} UnusedId(used: set<Id>)
    ensures exists id: Id :: id !in used
  {
    var bound := Above(used);
    assert bound !in used;
  }

  ghost function Above(used: set<Id>): (bound: Id)
    ensures forall id :: id in used ==> id.number < bound.number
  {
    if used == {} then Id(0)
    else
      var x :| x in used;
      assert forall id :: id in used ==> id == x || id in used - {x};
      var rest := Above(used - {x});
      if x.number < rest.number then rest else Id(x.number + 1)
  }

  /** The scanned rows are the selected rewards, each once, with their columns. */
  ghost predicate RowsMatch(db: Db, env: Env, eligible: set<Id>, rows: seq<EligibleReward>) {
    && Distinct(RewardIdsOf(rows))
    && Elements(RewardIdsOf(rows)) == eligible
    && forall i :: 0 <= i < |rows| ==> RowMatches(db, env, rows[i])
  }

  ghost predicate RowMatches(db: Db, env: Env, row: EligibleReward) {
    && row.rewardId in db.rewards
    && OwnerOf(db.rewards[row.rewardId]) == RowKey(row)
    && db.rewards[row.rewardId].amountCents == row.amountCents
    && row.partner in env.partners
    && env.partners[row.partner].pixKey == Some(row.pixKey)
    && env.partners[row.partner].pixKeyType == Some(row.pixKeyType)
  }

  lemma {:induction false} AddElement(s: seq<Id>, x: Id)
    requires Distinct(s) && x !in s
    ensures Distinct(s + [x]) && Elements(s + [x]) == Elements(s) + {x}
  {
  }

  /** The row that carries an id of the result set. */
  lemma {:induction false} RowOfId(rows: seq<EligibleReward>, id: Id) returns (i: nat)
    requires id in RewardIdsOf(rows)
    ensures i < |rows| && rows[i].rewardId == id
  {
    i :| 0 <= i < |rows| && RewardIdsOf(rows)[i] == id;
  }

  lemma {:induction false} IdOfRow(rows: seq<EligibleReward>, i: nat)
    requires i < |rows|
    ensures rows[i].rewardId in RewardIdsOf(rows)
  {
    assert RewardIdsOf(rows)[i] == rows[i].rewardId;
  }

  lemma {:induction false} RowKeysAreGroups(db: Db, env: Env, eligible: set<Id>, rows: seq<EligibleReward>)
    requires RowsMatch(db, env, eligible, rows)
    ensures RowKeys(rows) == Groups(db, eligible)
  {
    forall k | k in RowKeys(rows) ensures k in Groups(db, eligible) {
      var i: nat :| i < |rows| && RowKey(rows[i]) == k;
      IdOfRow(rows, i);
    }
    forall k | k in Groups(db, eligible) ensures k in RowKeys(rows) {
      var id :| id in eligible && id in db.rewards && OwnerOf(db.rewards[id]) == k;
      assert id in RewardIdsOf(rows);
      var i := RowOfId(rows, id);
      assert RowMatches(db, env, rows[i]);
    }
  }

  /** Filtering by key keeps the rows of the key and the uniqueness of ids. */
  lemma {:induction false} RowsOfSpec(rows: seq<EligibleReward>, k: Key)
    requires Distinct(RewardIdsOf(rows))
    ensures Distinct(RewardIdsOf(RowsOf(rows, k)))
    ensures forall row :: row in RowsOf(rows, k) <==> row in rows && RowKey(row) == k
  {
    if rows != [] {
      var front, row := rows[..|rows| - 1], rows[|rows| - 1];
      assert RewardIdsOf(front) == RewardIdsOf(rows)[..|front|];
      RowsOfSpec(front, k);
      assert rows == front + [row];
      var mine := RowsOf(front, k);
      forall i | 0 <= i < |mine| ensures mine[i].rewardId != row.rewardId {
        assert mine[i] in front;
        var j: nat :| j < |front| && front[j] == mine[i];
        assert RewardIdsOf(rows)[j] == mine[i].rewardId && RewardIdsOf(rows)[|front|] == row.rewardId;
      }
      assert RewardIdsOf(mine + [row]) == RewardIdsOf(mine) + [row.rewardId];
      AddElement(RewardIdsOf(mine), row.rewardId);
      assert RowsOf(rows, k) == if RowKey(row) == k then mine + [row] else mine;
    }
  }

  lemma {:induction false} RowSumIsRewardSum(db: Db, env: Env, rows: seq<EligibleReward>)
    requires forall i :: 0 <= i < |rows| ==> RowMatches(db, env, rows[i])
    ensures SumSeq(RowAmount(), rows) == SumSeq(AmountFn(db.rewards), RewardIdsOf(rows))
  {
    if rows != [] {
      var front := rows[..|rows| - 1];
      RowSumIsRewardSum(db, env, front);
      assert RewardIdsOf(rows)[..|front|] == RewardIdsOf(front);
    }
  }

  lemma {:induction false} GroupRowIds(db: Db, env: Env, eligible: set<Id>, rows: seq<EligibleReward>, k: Key)
    requires RowsMatch(db, env, eligible, rows)
    ensures Elements(RewardIdsOf(RowsOf(rows, k))) == Group(db, eligible, k)
  {
    RowsOfSpec(rows, k);
    var mine := RowsOf(rows, k);
    forall id | id in Group(db, eligible, k) ensures id in RewardIdsOf(mine) {
      assert id in RewardIdsOf(rows);
      var i := RowOfId(rows, id);
      assert RowMatches(db, env, rows[i]);
      assert rows[i] in mine;
      var j: nat :| j < |mine| && mine[j] == rows[i];
      IdOfRow(mine, j);
    }
    forall id | id in RewardIdsOf(mine) ensures id in Group(db, eligible, k) {
      var j := RowOfId(mine, id);
      assert mine[j] in rows;
      var i: nat :| i < |rows| && rows[i] == mine[j];
      assert RowMatches(db, env, rows[i]);
      IdOfRow(rows, i);
      assert id in Elements(RewardIdsOf(rows));
    }
  }

  /** What the grouping loop collects for a key is the declarative group of that key. */
  lemma {:induction false} GroupRows(db: Db, env: Env, eligible: set<Id>, rows: seq<EligibleReward>, k: Key)
    requires RowsMatch(db, env, eligible, rows) && RowsOf(rows, k) != []
    ensures var mine := RowsOf(rows, k);
            && Distinct(RewardIdsOf(mine))
            && Elements(RewardIdsOf(mine)) == Group(db, eligible, k)
            && SumSeq(RowAmount(), mine) == SumSeq(AmountFn(db.rewards), RewardIdsOf(mine))
            && k.partner in env.partners
            && env.partners[k.partner].pixKey == Some(mine[0].pixKey)
            && env.partners[k.partner].pixKeyType == Some(mine[0].pixKeyType)
  {
    RowsOfSpec(rows, k);
    GroupRowIds(db, env, eligible, rows, k);
    var mine := RowsOf(rows, k);
    forall i | 0 <= i < |mine| ensures RowMatches(db, env, mine[i]) && RowKey(mine[i]) == k {
      assert mine[i] in rows;
    }
    RowSumIsRewardSum(db, env, mine);
  }

  /** Payouts made for other keys do not change whether this key has a pending one. */
  lemma {:induction false} PendingUnchanged(db: Db, db': Db, env: Env, eligible: set<Id>, keys: set<Key>, k: Key)
    requires Opens(db, db', env, eligible, keys) && k !in keys
    ensures HasPending(db', k) == HasPending(db, k)
  {
  }

  lemma {:induction false} OpensOneMore(db: Db, before: Db, after: Db, env: Env, eligible: set<Id>, keys: set<Key>, id: Id)
    requires Opens(db, before, env, eligible, keys)
    requires id !in before.payouts && id in after.payouts && after == Db(before.rewards, before.payouts[id := after.payouts[id]])
    requires PayoutFor(db, env, eligible, after.payouts[id]) && after.payouts[id].Owner() !in keys
    ensures Opens(db, after, env, eligible, keys + {after.payouts[id].Owner()})
  {
    forall k | k in keys + {after.payouts[id].Owner()} ensures NewPayoutOf(db, after, k) {
      if k in keys {
        assert NewPayoutOf(db, before, k);
        var i :| i in before.payouts && i !in db.payouts && before.payouts[i].Owner() == k;
        assert i in after.payouts;
      } else {
        assert id in after.payouts && id !in db.payouts;
      }
    }
  }

  lemma {:induction false} HandlerKeys(db: Db, env: Env, eligible: set<Id>, tenant: Id, now: int, partners: set<Id>)
    requires eligible == HandlerEligible(db, env, tenant, now)
    requires partners == set id | id in eligible :: db.rewards[id].partner
    ensures forall k :: k in Groups(db, eligible) <==> k.tenant == tenant && k.partner in partners
    ensures forall p :: p in partners ==>
              && Group(db, eligible, Key(p, tenant)) == (set id | id in eligible && db.rewards[id].partner == p)
              && p in env.partners && env.partners[p].tenant == tenant && env.partners[p].pixKey.Some?
  {
  }

  lemma {:induction false} HandlerGroupOk(db: Db, env: Env, eligible: set<Id>, tenant: Id, now: int,
                                          partners: set<Id>, p: Id, rewardIds: seq<Id>)
    requires eligible == HandlerEligible(db, env, tenant, now)
    requires partners == set id | id in eligible :: db.rewards[id].partner
    requires p in partners && Distinct(rewardIds)
    requires Elements(rewardIds) == set id | id in eligible && db.rewards[id].partner == p
    ensures HandlerGroup(db, env, eligible, Key(p, tenant), rewardIds)
  {
    HandlerKeys(db, env, eligible, tenant, now, partners);
    forall id | id in rewardIds ensures id in db.rewards {
      assert id in Elements(rewardIds);
    }
  }

  lemma {:induction false} HandlerTarget(db: Db, env: Env, eligible: set<Id>, tenant: Id, now: int,
                                         partners: set<Id>, failing: set<Key>, target: set<Key>)
    requires eligible == HandlerEligible(db, env, tenant, now)
    requires partners == set id | id in eligible :: db.rewards[id].partner
    requires target == HandlerOpens(db, env, tenant, now) - failing
    ensures forall k :: k in target <==>
              && k.tenant == tenant && k.partner in partners && k.partner in env.partners
              && env.partners[k.partner].pixKeyType.Some? && k !in failing && !HasPending(db, k)
  {
  }

  /** What a job has collected for one owner: its whole group, each reward once, with its sum
      and the owner's Pix data. */
  ghost predicate GroupOk(db: Db, env: Env, eligible: set<Id>, k: Key, rewardIds: seq<Id>, totalCents: int,
                          pixKey: string, pixKeyType: string)
  {
    && Distinct(rewardIds)
    && Elements(rewardIds) == Group(db, eligible, k)
    && totalCents == SumSeq(AmountFn(db.rewards), rewardIds)
    && k.partner in env.partners
    && env.partners[k.partner].pixKey == Some(pixKey)
    && env.partners[k.partner].pixKeyType == Some(pixKeyType)
  }

  ghost predicate HandlerGroup(db: Db, env: Env, eligible: set<Id>, k: Key, rewardIds: seq<Id>) {
    && Distinct(rewardIds)
    && Elements(rewardIds) == Group(db, eligible, k)
    && (forall id :: id in rewardIds ==> id in db.rewards)
    && k.partner in env.partners
    && env.partners[k.partner].tenant == k.tenant
    && env.partners[k.partner].pixKey.Some?
  }
}
