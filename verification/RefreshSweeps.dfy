/** What the retention sweep changes over whole runs.  A swept token is answered as not found instead
    of as theft, unless its JWT has expired by then. */
module RefreshSweeps {
  import opened Common
  import opened RefreshFamilies

  /** A sweep takes rows revoked longer ago than this. */
  const RETENTION := 30 * DAY_MILLIS

  /** The exp claim of a refresh token minted at `born`: whole seconds. */
  function Expiry(ttl: int, born: int): int {
    (born + ttl) / 1000 * 1000
  }

  /** When each hash was given out, kept after its row is gone. */
  ghost function Births(b: map<Id, int>, s: Store, step: Step): map<Id, int> {
    if step.Open? || Accepts(s, step) then b[step.newHash := step.now] else b
  }

  /** A token the service gave out passes validation only before it expires. */
  predicate Presentable(ttl: int, b: map<Id, int>, step: Step) {
    step.Refresh? && step.valid && step.hash in b ==> step.now < Expiry(ttl, b[step.hash])
  }

  /** A run on a clock that does not go back, with tokens that live for `ttl`. */
  ghost predicate TimedRun(ttl: int, ss: seq<Store>, bs: seq<map<Id, int>>, steps: seq<Step>) {
    && IsRun(ss, steps) && Forward(steps)
    && |bs| == |ss| && bs[0] == map[]
    && forall i {:trigger steps[i]} :: 0 <= i < |steps| ==>
         bs[i + 1] == Births(bs[i], ss[i], steps[i]) && Presentable(ttl, bs[i], steps[i])
  }

  /** The stores the same steps lead to when every sweep is left out. */
  ghost predicate Unswept(ss: seq<Store>, steps: seq<Step>, ts: seq<Store>) {
    && |ts| == |ss| == |steps| + 1 && ts[0] == ss[0]
    && forall i {:trigger steps[i]} :: 0 <= i < |steps| ==> ts[i + 1] == NextUnswept(ts[i], steps[i])
  }

  ghost function NextUnswept(t: Store, step: Step): Store {
    if step.Sweep? then t else Next(t, step)
  }

  // ----- Swept and unswept store side by side -----

  /** A token that a sweep took: revoked, and never to be presented again. */
  ghost predicate Gone(ttl: int, x: Token, b: map<Id, int>, clock: int) {
    x.revokedAt.Some? && x.hash in b && Expiry(ttl, b[x.hash]) <= clock
  }

  /** Every token in the table was given out, and before it was revoked. */
  ghost predicate Dated(s: Store, b: map<Id, int>) {
    forall id :: id in s.tokens ==>
                   && s.tokens[id].hash in b
                   && (s.tokens[id].revokedAt.Some? ==> b[s.tokens[id].hash] <= s.tokens[id].revokedAt.value)
  }

  ghost predicate BornBy(s: Store, b: map<Id, int>, clock: int) {
    forall h :: h in b ==> h in s.issued && b[h] <= clock
  }

  /** `t` has the rows of `s` as they are, and beyond them only tokens that are gone. */
  ghost predicate Covers(ttl: int, s: Store, t: Store, b: map<Id, int>, clock: int) {
    && s.sessions == t.sessions && s.issued == t.issued
    && (forall id :: id in s.tokens ==> id in t.tokens && t.tokens[id] == s.tokens[id])
    && (forall id :: id in t.tokens && id !in s.tokens ==> Gone(ttl, t.tokens[id], b, clock))
  }

  ghost predicate Mirror(ttl: int, s: Store, t: Store, b: map<Id, int>, clock: int) {
    && NamesUnique(s) && NamesUnique(t)
    && Covers(ttl, s, t, b, clock) && Dated(s, b) && BornBy(s, b, clock)
  }

  ghost predicate NamesUnique(s: Store) {
    UniqueHashes(s) && AllIssued(s)
  }

  lemma {:induction false} RotateKeepsNames(s: Store, x: Id, token: Id, newHash: Id, now: int)
    requires NamesUnique(s) && x in s.tokens && token != newHash && token !in s.issued && newHash !in s.issued
    ensures NamesUnique(Rotate(s, x, token, newHash, now))
  {
  }

  lemma {:induction false} StampKeepsNames(s: Store, t: Store, ids: set<Id>, now: int)
    requires NamesUnique(s) && t.tokens == Stamp(s.tokens, ids, now) && t.issued == s.issued
    ensures NamesUnique(t)
  {
  }

  lemma {:induction false} RefreshKeepsNames(s: Store, step: Step)
    requires NamesUnique(s) && Fresh(s, step) && step.Refresh?
    ensures NamesUnique(Next(s, step))
  {
    LookupFinds(s, step.hash);
    match RefreshAnswer(s, step.hash, step.valid, step.minted)
    case Accepted => RotateKeepsNames(s, Lookup(s, step.hash).value, step.token, step.newHash, step.now);
    case Theft => StampKeepsNames(s, Next(s, step), Family(s, s.tokens[Lookup(s, step.hash).value].family), step.now);
    case MintFailed => StampKeepsNames(s, Next(s, step), {Lookup(s, step.hash).value}, step.now);
    case _ =>
  }

  lemma {:induction false} StepKeepsNames(s: Store, step: Step)
    requires NamesUnique(s) && Fresh(s, step)
    ensures NamesUnique(Next(s, step))
  {
    if step.Refresh? {
      RefreshKeepsNames(s, step);
    }
  }

  lemma {:induction false} MirrorLater(ttl: int, s: Store, t: Store, b: map<Id, int>, clock: int, later: int)
    requires Mirror(ttl, s, t, b, clock) && clock <= later
    ensures Mirror(ttl, s, t, b, later)
  {
  }

  /** A token that passes validation is found in both or in neither. */
  lemma {:induction false} SameLookup(ttl: int, s: Store, t: Store, b: map<Id, int>, step: Step)
    requires Mirror(ttl, s, t, b, step.now) && Presentable(ttl, b, step) && step.Refresh? && step.valid
    ensures Lookup(s, step.hash) == Lookup(t, step.hash)
  {
    LookupFinds(s, step.hash);
    LookupFinds(t, step.hash);
    if Lookup(t, step.hash).Some? {
      var x := Lookup(t, step.hash).value;
      assert x !in s.tokens ==> Gone(ttl, t.tokens[x], b, step.now);
    }
  }

  lemma {:induction false} SameAnswer(ttl: int, s: Store, t: Store, b: map<Id, int>, step: Step)
    requires Mirror(ttl, s, t, b, step.now) && Presentable(ttl, b, step) && step.Refresh?
    ensures RefreshAnswer(s, step.hash, step.valid, step.minted) == RefreshAnswer(t, step.hash, step.valid, step.minted)
  {
    if step.valid {
      SameLookup(ttl, s, t, b, step);
      LookupFinds(s, step.hash);
    }
  }

  lemma {:induction false} SameAlive(ttl: int, s: Store, t: Store, b: map<Id, int>, clock: int, f: Id)
    requires Mirror(ttl, s, t, b, clock)
    ensures Alive(s, f) <==> Alive(t, f)
  {
    if Alive(s, f) {
      var id :| id in s.tokens && s.tokens[id].family == f && s.tokens[id].revokedAt.None?;
      assert id in t.tokens && t.tokens[id].revokedAt.None?;
    }
  }

  // ----- One step on both -----

  lemma {:induction false} SweepCovers(ttl: int, s: Store, t: Store, b: map<Id, int>, now: int)
    requires Mirror(ttl, s, t, b, now) && ttl <= RETENTION + 1
    ensures Covers(ttl, SweepStep(s, now), t, b, now) && Dated(SweepStep(s, now), b)
  {
    var doomed := Doomed(s, now);
    forall id | id in doomed ensures Gone(ttl, s.tokens[id], b, now) {
      assert b[s.tokens[id].hash] <= s.tokens[id].revokedAt.value;
    }
  }

  /** Stamping tokens that the two stores choose alike. */
  lemma {:induction false} StampCovers(ttl: int, s: Store, t: Store, b: map<Id, int>, now: int, ids: set<Id>, ids': set<Id>)
    requires Covers(ttl, s, t, b, now) && Dated(s, b) && BornBy(s, b, now)
    requires forall id :: id in s.tokens ==> (id in ids <==> id in ids')
    ensures Covers(ttl, s.(tokens := Stamp(s.tokens, ids, now)), t.(tokens := Stamp(t.tokens, ids', now)), b, now)
    ensures Dated(s.(tokens := Stamp(s.tokens, ids, now)), b)
  {
    var s', t' := s.(tokens := Stamp(s.tokens, ids, now)), t.(tokens := Stamp(t.tokens, ids', now));
    forall id | id in s'.tokens ensures id in t'.tokens && t'.tokens[id] == s'.tokens[id] {
      assert t.tokens[id] == s.tokens[id];
    }
    forall id | id in t'.tokens && id !in s'.tokens ensures Gone(ttl, t'.tokens[id], b, now) {
      assert Gone(ttl, t.tokens[id], b, now);
    }
  }

  lemma {:induction false} RefreshCovers(ttl: int, s: Store, t: Store, b: map<Id, int>, step: Step)
    requires Mirror(ttl, s, t, b, step.now) && Fresh(s, step) && Presentable(ttl, b, step) && step.Refresh?
    ensures Covers(ttl, Next(s, step), Next(t, step), Births(b, s, step), step.now)
    ensures Dated(Next(s, step), Births(b, s, step))
  {
    SameAnswer(ttl, s, t, b, step);
    if step.valid {
      SameLookup(ttl, s, t, b, step);
      LookupFinds(s, step.hash);
      match RefreshAnswer(s, step.hash, step.valid, step.minted)
      case Theft =>
        var f := s.tokens[Lookup(s, step.hash).value].family;
        StampCovers(ttl, s, t, b, step.now, Family(s, f), Family(t, f));
      case MintFailed =>
        var x := Lookup(s, step.hash).value;
        StampCovers(ttl, s, t, b, step.now, {x}, {x});
      case Accepted => RotateCovers(ttl, s, t, b, step);
      case _ =>
    }
  }

  lemma {:induction false} RotateCovers(ttl: int, s: Store, t: Store, b: map<Id, int>, step: Step)
    requires Mirror(ttl, s, t, b, step.now) && Fresh(s, step) && Accepts(s, step)
    requires Lookup(s, step.hash) == Lookup(t, step.hash)
    ensures Lookup(s, step.hash).Some? && Lookup(s, step.hash).value in s.tokens
    ensures var x := Lookup(s, step.hash).value;
            && Covers(ttl, Rotate(s, x, step.token, step.newHash, step.now), Rotate(t, x, step.token, step.newHash, step.now),
                      Births(b, s, step), step.now)
            && Dated(Rotate(s, x, step.token, step.newHash, step.now), Births(b, s, step))
  {
    LookupFinds(s, step.hash);
    assert step.newHash !in b;
  }

  lemma {:induction false} OpenCovers(ttl: int, s: Store, t: Store, b: map<Id, int>, step: Step)
    requires Mirror(ttl, s, t, b, step.now) && Fresh(s, step) && step.Open?
    ensures Covers(ttl, Next(s, step), Next(t, step), Births(b, s, step), step.now)
    ensures Dated(Next(s, step), Births(b, s, step))
  {
    assert step.newHash !in b;
  }

  lemma {:induction false} RevokeCovers(ttl: int, s: Store, t: Store, b: map<Id, int>, step: Step)
    requires Covers(ttl, s, t, b, step.now) && Dated(s, b) && BornBy(s, b, step.now) && step.Revoke?
    ensures Covers(ttl, Next(s, step), Next(t, step), b, step.now) && Dated(Next(s, step), b)
  {
    if Revokable(s, step.session, step.user) {
      var ids, ids' := Unrevoked(s, OfSession(s, step.session, step.user)), Unrevoked(t, OfSession(t, step.session, step.user));
      StampCovers(ttl, s, t, b, step.now, ids, ids');
    }
  }

  lemma {:induction false} RevokeAllCovers(ttl: int, s: Store, t: Store, b: map<Id, int>, step: Step)
    requires Covers(ttl, s, t, b, step.now) && Dated(s, b) && BornBy(s, b, step.now) && step.RevokeAll?
    ensures Covers(ttl, Next(s, step), Next(t, step), b, step.now) && Dated(Next(s, step), b)
  {
    StampCovers(ttl, s, t, b, step.now, Unrevoked(s, OfUser(s, step.user)), Unrevoked(t, OfUser(t, step.user)));
  }

  lemma {:induction false} StepCovers(ttl: int, s: Store, t: Store, b: map<Id, int>, step: Step)
    requires Mirror(ttl, s, t, b, step.now) && Fresh(s, step) && Presentable(ttl, b, step) && ttl <= RETENTION + 1
    ensures Covers(ttl, Next(s, step), NextUnswept(t, step), Births(b, s, step), step.now)
    ensures Dated(Next(s, step), Births(b, s, step))
  {
    match step
    case Open(_, _, _, _, _, _, _) => OpenCovers(ttl, s, t, b, step);
    case Refresh(_, _, _, _, _, _) => RefreshCovers(ttl, s, t, b, step);
    case Logout(hash, now) => StampCovers(ttl, s, t, b, now, WithHash(s, hash), WithHash(t, hash));
    case Revoke(_, _, _) => RevokeCovers(ttl, s, t, b, step);
    case RevokeAll(_, _) => RevokeAllCovers(ttl, s, t, b, step);
    case Sweep(now) => SweepCovers(ttl, s, t, b, now);
  }

  lemma {:induction false} MirrorStep(ttl: int, s: Store, t: Store, b: map<Id, int>, step: Step)
    requires Mirror(ttl, s, t, b, step.now) && Fresh(s, step) && Presentable(ttl, b, step) && ttl <= RETENTION + 1
    ensures Mirror(ttl, Next(s, step), NextUnswept(t, step), Births(b, s, step), step.now)
  {
    StepCovers(ttl, s, t, b, step);
    StepKeepsNames(s, step);
    StepKeepsNames(t, step);
    BirthsBornBy(s, b, step);
  }

  lemma {:induction false} BirthsBornBy(s: Store, b: map<Id, int>, step: Step)
    requires BornBy(s, b, step.now)
    ensures BornBy(Next(s, step), Births(b, s, step), step.now)
  {
    assert s.issued <= Next(s, step).issued;
  }

  // ----- Whole runs -----

  lemma {:induction false} StartMirrors(ttl: int, clock: int)
    ensures Mirror(ttl, EMPTY, EMPTY, map[], clock)
  {
  }

  lemma {:induction false} TurnOf(ttl: int, ss: seq<Store>, bs: seq<map<Id, int>>, steps: seq<Step>, ts: seq<Store>, i: nat)
    requires TimedRun(ttl, ss, bs, steps) && Unswept(ss, steps, ts) && i < |steps|
    ensures Fresh(ss[i], steps[i]) && ss[i + 1] == Next(ss[i], steps[i]) && ts[i + 1] == NextUnswept(ts[i], steps[i])
    ensures bs[i + 1] == Births(bs[i], ss[i], steps[i]) && Presentable(ttl, bs[i], steps[i])
    ensures i + 1 < |steps| ==> steps[i].now <= steps[i + 1].now
  {
    assert Reaches(ss[i], steps[i], ss[i + 1]);
  }

  lemma {:induction false} RunMirrors(ttl: int, ss: seq<Store>, bs: seq<map<Id, int>>, steps: seq<Step>, ts: seq<Store>, n: nat)
    requires TimedRun(ttl, ss, bs, steps) && Unswept(ss, steps, ts) && ttl <= RETENTION + 1 && n < |steps|
    ensures Mirror(ttl, ss[n], ts[n], bs[n], steps[n].now)
  {
    StartMirrors(ttl, steps[0].now);
    for i := 0 to n
      invariant Mirror(ttl, ss[i], ts[i], bs[i], steps[i].now)
    {
      TurnOf(ttl, ss, bs, steps, ts, i);
      MirrorStep(ttl, ss[i], ts[i], bs[i], steps[i]);
      MirrorLater(ttl, ss[i + 1], ts[i + 1], bs[i + 1], steps[i].now, steps[i + 1].now);
    }
  }

  lemma {:induction false} EndMirrors(ttl: int, ss: seq<Store>, bs: seq<map<Id, int>>, steps: seq<Step>, ts: seq<Store>)
    returns (clock: int)
    requires TimedRun(ttl, ss, bs, steps) && Unswept(ss, steps, ts) && ttl <= RETENTION + 1
    ensures Mirror(ttl, ss[|steps|], ts[|steps|], bs[|steps|], clock)
  {
    clock := 0;
    var n := |steps|;
    if n == 0 {
      StartMirrors(ttl, clock);
    } else {
      clock := steps[n - 1].now;
      RunMirrors(ttl, ss, bs, steps, ts, n - 1);
      TurnOf(ttl, ss, bs, steps, ts, n - 1);
      MirrorStep(ttl, ss[n - 1], ts[n - 1], bs[n - 1], steps[n - 1]);
    }
  }

  /** Leaving every sweep out of a run changes no family's life, if a refresh token does not outlive
      the retention. */
  lemma {:induction false} SweepsChangeNoLife(
      ttl: int, ss: seq<Store>, bs: seq<map<Id, int>>, steps: seq<Step>, ts: seq<Store>, n: nat, f: Id)
    requires TimedRun(ttl, ss, bs, steps) && Unswept(ss, steps, ts) && ttl <= RETENTION + 1 && n < |ss|
    ensures Alive(ss[n], f) <==> Alive(ts[n], f)
  {
    if n < |steps| {
      RunMirrors(ttl, ss, bs, steps, ts, n);
      SameAlive(ttl, ss[n], ts[n], bs[n], steps[n].now, f);
    } else {
      var clock := EndMirrors(ttl, ss, bs, steps, ts);
      SameAlive(ttl, ss[n], ts[n], bs[n], clock, f);
    }
  }

  /** Nor does it change any answer to a refresh or to a session revocation. */
  lemma {:induction false} SweepsChangeNoAnswer(
      ttl: int, ss: seq<Store>, bs: seq<map<Id, int>>, steps: seq<Step>, ts: seq<Store>, n: nat)
    requires TimedRun(ttl, ss, bs, steps) && Unswept(ss, steps, ts) && ttl <= RETENTION + 1 && n < |steps|
    ensures SameOutcome(ss[n], ts[n], steps[n])
  {
    RunMirrors(ttl, ss, bs, steps, ts, n);
    TurnOf(ttl, ss, bs, steps, ts, n);
    if steps[n].Refresh? {
      SameAnswer(ttl, ss[n], ts[n], bs[n], steps[n]);
    }
  }

  /** What the caller of a handler sees. */
  ghost predicate SameOutcome(s: Store, t: Store, step: Step) {
    match step
    case Refresh(hash, valid, minted, _, _, _) => RefreshAnswer(s, hash, valid, minted) == RefreshAnswer(t, hash, valid, minted)
    case Revoke(session, user, _) => Revokable(s, session, user) == Revokable(t, session, user)
    case _ => true
  }

  // ----- The exact limit on the life of a token -----

  /** No run tells by an answer to a refresh whether its sweeps happened. */
  ghost predicate SweepsInvisible(ttl: int) {
    forall ss, bs, steps, ts, n: nat ::
      TimedRun(ttl, ss, bs, steps) && Unswept(ss, steps, ts) && n < |steps| ==> SameOutcome(ss[n], ts[n], steps[n])
  }
}
