/** The two payout jobs compared with themselves and with each other. */
module LedgerJobs {
  import opened Common
  import opened FiniteSums
  import opened Ledger

  function NewIds(db: Db, db': Db): set<Id> {
    db'.payouts.Keys - db.payouts.Keys
  }

  /** The same payout but for the order in which its rewards are listed. */
  ghost predicate SamePayout(p: Payout, q: Payout) {
    p == q.(rewardIds := p.rewardIds) && multiset(p.rewardIds) == multiset(q.rewardIds)
  }

  /** `ren` matches the payouts opened in `a` one to one with those opened in `b`. */
  ghost predicate Renames(db: Db, a: Db, b: Db, ren: map<Id, Id>) {
    && ren.Keys == NewIds(db, a)
    && ren.Values == NewIds(db, b)
    && (forall i, j :: i in ren && j in ren && ren[i] == ren[j] ==> i == j)
    && (forall i :: i in ren ==> ren[i] in b.payouts && SamePayout(a.payouts[i], b.payouts[ren[i]]))
  }

  /** Two outcomes that differ only in the ids of the payouts they opened. */
  ghost predicate SameUpToIds(db: Db, a: Db, b: Db) {
    && a.rewards == b.rewards
    && (forall id :: id in db.payouts ==> id in a.payouts && id in b.payouts && a.payouts[id] == b.payouts[id])
    && exists ren :: Renames(db, a, b, ren)
  }

  lemma {:induction false} DistinctMultiset(s: seq<Id>, t: seq<Id>)
    requires Distinct(s) && Distinct(t) && Elements(s) == Elements(t)
    ensures multiset(s) == multiset(t)
  {
    forall x ensures multiset(s)[x] == multiset(t)[x] {
      DistinctCount(s, x);
      DistinctCount(t, x);
      assert x in s <==> x in Elements(s);
      assert x in t <==> x in Elements(t);
    }
  }

  lemma {:induction false} DistinctCount(s: seq<Id>, x: Id)
    requires Distinct(s)
    ensures multiset(s)[x] == if x in s then 1 else 0
  {
    if s != [] {
      var front := s[..|s| - 1];
      DistinctCount(front, x);
      assert s == front + [s[|s| - 1]];
    }
  }

  /** A job's payout for an owner is settled but for its id and the order of its rewards. */
  lemma {:induction false} PayoutForDetermined(db: Db, env: Env, eligible: set<Id>, p: Payout, q: Payout)
    requires PayoutFor(db, env, eligible, p) && PayoutFor(db, env, eligible, q) && p.Owner() == q.Owner()
    ensures SamePayout(p, q)
  {
    DistinctMultiset(p.rewardIds, q.rewardIds);
    SumSeqIsSumOver(AmountFn(db.rewards), p.rewardIds);
    SumSeqIsSumOver(AmountFn(db.rewards), q.rewardIds);
  }

  ghost function NewPayout(db: Db, db': Db, k: Key): (id: Id)
    requires NewPayoutOf(db, db', k)
    ensures id in NewIds(db, db') && db'.payouts[id].Owner() == k
  {
    var id :| id in db'.payouts && id !in db.payouts && db'.payouts[id].Owner() == k;
    id
  }

  ghost function Renaming(db: Db, a: Db, b: Db, env: Env, eligible: set<Id>, keys: set<Key>): map<Id, Id>
    requires Opens(db, a, env, eligible, keys) && Opens(db, b, env, eligible, keys)
  {
    map i | i in NewIds(db, a) :: NewPayout(db, b, a.payouts[i].Owner())
  }

  /** Order independence: whatever order a job visits its groups and rows in, what it leaves is the
      same up to the ids of the new payouts. */
  lemma {:induction false} OrderIndependent(db: Db, a: Db, b: Db, env: Env, eligible: set<Id>, keys: set<Key>)
    requires Opens(db, a, env, eligible, keys) && Opens(db, b, env, eligible, keys)
    ensures SameUpToIds(db, a, b)
  {
    var ren := Renaming(db, a, b, env, eligible, keys);
    forall i | i in ren ensures ren[i] in b.payouts && SamePayout(a.payouts[i], b.payouts[ren[i]]) {
      PayoutForDetermined(db, env, eligible, a.payouts[i], b.payouts[ren[i]]);
    }
    forall j | j in NewIds(db, b) ensures j in ren.Values {
      RenamingReaches(db, a, b, env, eligible, keys, j);
    }
    assert Renames(db, a, b, ren);
  }

  lemma {:induction false} RenamingReaches(db: Db, a: Db, b: Db, env: Env, eligible: set<Id>, keys: set<Key>, j: Id)
    requires Opens(db, a, env, eligible, keys) && Opens(db, b, env, eligible, keys) && j in NewIds(db, b)
    ensures j in Renaming(db, a, b, env, eligible, keys).Values
  {
    var ren, k := Renaming(db, a, b, env, eligible, keys), b.payouts[j].Owner();
    var i := NewPayout(db, a, k);
    assert i in ren && ren[i] == NewPayout(db, b, k);
    assert NewPayout(db, b, k) == j;
  }

  // ----- Running twice -----

  /** A job run whose statements all succeeded. */
  ghost predicate WorkerRan(db: Db, db': Db, env: Env, now: int) {
    Opens(db, db', env, WorkerEligible(db, env, now), WorkerOpens(db, env, now))
  }

  ghost predicate HandlerRan(db: Db, db': Db, env: Env, tenant: Id, now: int) {
    Opens(db, db', env, HandlerEligible(db, env, tenant, now), HandlerOpens(db, env, tenant, now))
  }

  lemma {:induction false} OpenedArePending(db: Db, db': Db, env: Env, eligible: set<Id>, keys: set<Key>, k: Key)
    requires Opens(db, db', env, eligible, keys) && (k in keys || HasPending(db, k))
    ensures HasPending(db', k)
  {
  }

  lemma {:induction false} OpensNothing(db: Db, db': Db, env: Env, eligible: set<Id>)
    requires Opens(db, db', env, eligible, {})
    ensures db' == db
  {
  }

  /** A second worker job at the same clock creates nothing. */
  lemma {:induction false} WorkerTwice(db: Db, once: Db, twice: Db, env: Env, now: int)
    requires WorkerRan(db, once, env, now) && WorkerRan(once, twice, env, now)
    ensures twice == once
  {
    var eligible := WorkerEligible(db, env, now);
    assert WorkerEligible(once, env, now) == eligible;
    assert Groups(once, eligible) == Groups(db, eligible);
    forall k ensures k !in WorkerOpens(once, env, now) {
      if k in WorkerOpens(db, env, now) || HasPending(db, k) {
        OpenedArePending(db, once, env, eligible, WorkerOpens(db, env, now), k);
      }
    }
    assert WorkerOpens(once, env, now) == {};
    OpensNothing(once, twice, env, eligible);
  }

  /** Nor does a second handler job of the same tenant. */
  lemma {:induction false} HandlerTwice(db: Db, once: Db, twice: Db, env: Env, tenant: Id, now: int)
    requires HandlerRan(db, once, env, tenant, now) && HandlerRan(once, twice, env, tenant, now)
    ensures twice == once
  {
    var eligible := HandlerEligible(db, env, tenant, now);
    assert HandlerEligible(once, env, tenant, now) == eligible;
    assert Groups(once, eligible) == Groups(db, eligible);
    forall k ensures k !in HandlerOpens(once, env, tenant, now) {
      if k in HandlerOpens(db, env, tenant, now) || HasPending(db, k) {
        OpenedArePending(db, once, env, eligible, HandlerOpens(db, env, tenant, now), k);
      }
    }
    assert HandlerOpens(once, env, tenant, now) == {};
    OpensNothing(once, twice, env, eligible);
  }

  // ----- The worker job against one handler job per tenant -----

  /** Rewards agree with their partners on tenant and program, and no Pix column is NULL. */
  ghost predicate Matched(db: Db, env: Env) {
    forall id :: id in db.rewards && db.rewards[id].partner in env.partners ==>
                   var r, pa := db.rewards[id], env.partners[db.rewards[id].partner];
                   pa.tenant == r.tenant && pa.program == r.program && pa.pixKey.Some? && pa.pixKeyType.Some?
  }

  /** The handler job run once per listed tenant, in the listed order. */
  ghost predicate HandlersRan(hs: seq<Db>, env: Env, tenants: seq<Id>, now: int) {
    |hs| == |tenants| + 1 && forall i :: 0 <= i < |tenants| ==> HandlerRan(hs[i], hs[i + 1], env, tenants[i], now)
  }

  /** The worker's keys that belong to some of the tenants. */
  function KeysOf(db: Db, env: Env, tenants: set<Id>, now: int): set<Key> {
    set k | k in WorkerOpens(db, env, now) && k.tenant in tenants
  }

  /** A matched handler group is the worker group of the same key. */
  lemma {:induction false} MatchedGroup(db: Db, env: Env, now: int, k: Key)
    requires Matched(db, env)
    requires k.partner in env.partners && env.partners[k.partner].pixKey.Some? && env.partners[k.partner].pixKey != Some("")
    ensures Group(db, HandlerEligible(db, env, k.tenant, now), k) == Group(db, WorkerEligible(db, env, now), k)
  {
  }

  lemma {:induction false} MatchedKeys(db: Db, env: Env, tenant: Id, now: int)
    requires Matched(db, env)
    ensures HandlerOpens(db, env, tenant, now) == KeysOf(db, env, {tenant}, now)
  {
  }

  /** One more handler job extends what the worker job would have opened by its tenant's keys. */
  lemma {:induction false} HandlerExtends(db: Db, h: Db, h': Db, env: Env, done: set<Id>, tenant: Id, now: int)
    requires Matched(db, env) && tenant !in done
    requires Opens(db, h, env, WorkerEligible(db, env, now), KeysOf(db, env, done, now))
    requires HandlerRan(h, h', env, tenant, now)
    ensures Opens(db, h', env, WorkerEligible(db, env, now), KeysOf(db, env, done + {tenant}, now))
  {
    var eligible, mine := WorkerEligible(db, env, now), HandlerEligible(h, env, tenant, now);
    assert mine == HandlerEligible(db, env, tenant, now);
    HandlerKeysSame(db, h, env, done, tenant, now);
    forall id | id in h'.payouts && id !in h.payouts
      ensures PayoutFor(db, env, eligible, h'.payouts[id]) && h'.payouts[id].Owner() in KeysOf(db, env, {tenant}, now)
    {
      var p := h'.payouts[id];
      MatchedGroup(db, env, now, p.Owner());
      assert Group(h, mine, p.Owner()) == Group(db, mine, p.Owner());
    }
    OpensChain(db, h, h', env, eligible, KeysOf(db, env, done, now), KeysOf(db, env, {tenant}, now));
    assert KeysOf(db, env, done + {tenant}, now) == KeysOf(db, env, done, now) + KeysOf(db, env, {tenant}, now);
  }

  /** The handler of one tenant sees no payout opened for another. */
  lemma {:induction false} HandlerKeysSame(db: Db, h: Db, env: Env, done: set<Id>, tenant: Id, now: int)
    requires Matched(db, env) && tenant !in done
    requires Opens(db, h, env, WorkerEligible(db, env, now), KeysOf(db, env, done, now))
    ensures HandlerOpens(h, env, tenant, now) == KeysOf(db, env, {tenant}, now)
  {
    MatchedKeys(db, env, tenant, now);
    var mine := HandlerEligible(h, env, tenant, now);
    assert mine == HandlerEligible(db, env, tenant, now);
    assert Groups(h, mine) == Groups(db, mine);
    forall k | k in Groups(db, mine) ensures HasPending(h, k) == HasPending(db, k) {
      assert k.tenant == tenant;
      if HasPending(db, k) {
        OpenedArePending(db, h, env, WorkerEligible(db, env, now), KeysOf(db, env, done, now), k);
      }
    }
  }

  lemma {:induction false} OpensChain(db: Db, h: Db, h': Db, env: Env, eligible: set<Id>, first: set<Key>, second: set<Key>)
    requires Opens(db, h, env, eligible, first) && first !! second
    requires h'.rewards == h.rewards
    requires forall id :: id in h.payouts ==> id in h'.payouts && h'.payouts[id] == h.payouts[id]
    requires forall id :: id in h'.payouts && id !in h.payouts ==>
               PayoutFor(db, env, eligible, h'.payouts[id]) && h'.payouts[id].Owner() in second
    requires forall i, j :: i in h'.payouts && i !in h.payouts && j in h'.payouts && j !in h.payouts && i != j ==>
               h'.payouts[i].Owner() != h'.payouts[j].Owner()
    requires forall k :: k in second ==> NewPayoutOf(h, h', k)
    ensures Opens(db, h', env, eligible, first + second)
  {
    forall k | k in first + second ensures NewPayoutOf(db, h', k) {
      if k in first {
        var id := NewPayout(db, h, k);
        assert id in h'.payouts && id !in db.payouts && h'.payouts[id].Owner() == k;
      } else {
        var id := NewPayout(h, h', k);
        assert id !in db.payouts;
      }
    }
  }

  lemma {:induction false} HandlersPrefix(hs: seq<Db>, env: Env, tenants: seq<Id>, now: int, n: nat)
    requires HandlersRan(hs, env, tenants, now) && Distinct(tenants) && Matched(hs[0], env) && n <= |tenants|
    ensures Opens(hs[0], hs[n], env, WorkerEligible(hs[0], env, now), KeysOf(hs[0], env, Elements(tenants[..n]), now))
  {
    if n == 0 {
      assert KeysOf(hs[0], env, Elements(tenants[..0]), now) == {};
    } else {
      HandlersPrefix(hs, env, tenants, now, n - 1);
      assert HandlerRan(hs[n - 1], hs[n], env, tenants[n - 1], now);
      assert tenants[n - 1] !in tenants[..n - 1];
      HandlerExtends(hs[0], hs[n - 1], hs[n], env, Elements(tenants[..n - 1]), tenants[n - 1], now);
      assert tenants[..n] == tenants[..n - 1] + [tenants[n - 1]];
      assert Elements(tenants[..n]) == Elements(tenants[..n - 1]) + {tenants[n - 1]};
    }
  }

  /** The two implementations agree: on matched data one worker job leaves what the handler job
      leaves when run once for every tenant, in any order, up to payout ids. */
  lemma {:induction false} JobsAgree(w: Db, hs: seq<Db>, env: Env, tenants: seq<Id>, now: int)
    requires HandlersRan(hs, env, tenants, now) && Distinct(tenants) && Matched(hs[0], env)
    requires forall id :: id in hs[0].rewards ==> hs[0].rewards[id].tenant in tenants
    requires WorkerRan(hs[0], w, env, now)
    ensures SameUpToIds(hs[0], w, hs[|tenants|])
  {
    var db := hs[0];
    HandlersPrefix(hs, env, tenants, now, |tenants|);
    assert tenants[..|tenants|] == tenants;
    forall k | k in WorkerOpens(db, env, now) ensures k.tenant in Elements(tenants) {
      var id :| id in WorkerEligible(db, env, now) && OwnerOf(db.rewards[id]) == k;
    }
    assert KeysOf(db, env, Elements(tenants), now) == WorkerOpens(db, env, now);
    OrderIndependent(db, w, hs[|tenants|], env, WorkerEligible(db, env, now), WorkerOpens(db, env, now));
  }

  // ----- The worker job against its description -----

  /** What the worker job is described to pay: every due group whose partner has a Pix key and no
      pending payout. */
  function DescribedOpens(db: Db, env: Env, now: int): set<Key> {
    set k | k in Groups(db, WorkerEligible(db, env, now)) && k.partner in env.partners
            && env.partners[k.partner].pixKey.Some? && env.partners[k.partner].pixKey != Some("")
            && !HasPending(db, k)
  }

  /** The job does as described if and only if no due row has a NULL Pix column, or there was
      nothing to pay anyway. */
  lemma {:induction false} WorkerAsDescribedIff(db: Db, env: Env, now: int)
    ensures WorkerOpens(db, env, now) == DescribedOpens(db, env, now) <==>
            ScansCleanly(db, env, WorkerEligible(db, env, now)) || DescribedOpens(db, env, now) == {}
  {
    var eligible := WorkerEligible(db, env, now);
    if ScansCleanly(db, env, eligible) {
      forall k | k in Groups(db, eligible) && k.partner in env.partners ensures env.partners[k.partner].pixKey.Some? {
        var id :| id in eligible && id in db.rewards && OwnerOf(db.rewards[id]) == k;
        assert db.rewards[id].partner == k.partner;
      }
      assert WorkerOpens(db, env, now) == DescribedOpens(db, env, now);
    }
  }
}
