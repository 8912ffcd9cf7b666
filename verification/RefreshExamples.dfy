/** Short runs of one login: what a reader of the handlers may not expect, reached step by step. */
module RefreshExamples {
  import opened Common
  import opened RefreshFamilies
  import opened RefreshSweeps

  const USER := Id(1)
  const TENANT := Id(2)
  const SESSION := Id(3)
  const FAMILY := Id(4)
  const TOKEN_A := Id(5)
  const HASH_A := Id(6)
  const TOKEN_B := Id(7)
  const HASH_B := Id(8)
  const TOKEN_C := Id(9)
  const HASH_C := Id(10)
  const TOKEN_D := Id(11)
  const HASH_D := Id(12)

  function Login(now: int): Step {
    Open(USER, TENANT, SESSION, TOKEN_A, FAMILY, HASH_A, now)
  }

  function Rotation(now: int): Step {
    Refresh(HASH_A, true, true, TOKEN_B, HASH_B, now)
  }

  function LoggedIn(start: int): Store {
    Store(map[TOKEN_A := Born(USER, Some(SESSION), TENANT, FAMILY, HASH_A, start)],
          map[SESSION := Session(USER, TENANT, None)],
          {SESSION, TOKEN_A, FAMILY, HASH_A})
  }

  /** After one refresh the login token is revoked and replaced. */
  function Rotated(start: int, now: int): Store {
    var a := Born(USER, Some(SESSION), TENANT, FAMILY, HASH_A, start);
    Store(map[TOKEN_A := a.(revokedAt := Some(now), replacedBy := Some(TOKEN_B)),
              TOKEN_B := Born(USER, None, TENANT, FAMILY, HASH_B, now)],
          map[SESSION := Session(USER, TENANT, None)],
          {SESSION, TOKEN_A, FAMILY, HASH_A, TOKEN_B, HASH_B})
  }

  lemma {:induction false} LookupOf(s: Store, id: Id)
    requires UniqueHashes(s) && id in s.tokens
    ensures Lookup(s, s.tokens[id].hash) == Some(id)
  {
    LookupFinds(s, s.tokens[id].hash);
  }

  lemma {:induction false} RotatedRuns(start: int, now: int)
    ensures Reaches(EMPTY, Login(start), LoggedIn(start))
    ensures Reaches(LoggedIn(start), Rotation(now), Rotated(start, now))
    ensures UniqueHashes(LoggedIn(start)) && UniqueHashes(Rotated(start, now))
  {
    LookupOf(LoggedIn(start), TOKEN_A);
    var s, t := LoggedIn(start), Rotated(start, now);
    assert Rotate(s, TOKEN_A, TOKEN_B, HASH_B, now).tokens == t.tokens;
    assert Rotate(s, TOKEN_A, TOKEN_B, HASH_B, now).issued == t.issued;
  }

  lemma {:induction false} TwoSteps(start: int, now: int) returns (ss: seq<Store>, steps: seq<Step>)
    ensures IsRun(ss, steps) && steps == [Login(start), Rotation(now)] && ss[2] == Rotated(start, now)
  {
    RotatedRuns(start, now);
    ss, steps := [EMPTY, LoggedIn(start), Rotated(start, now)], [Login(start), Rotation(now)];
  }

  lemma {:induction false} RunExtends(ss: seq<Store>, steps: seq<Step>, step: Step)
    requires IsRun(ss, steps) && Fresh(ss[|steps|], step)
    ensures IsRun(ss + [Next(ss[|steps|], step)], steps + [step])
  {
    var ss', steps' := ss + [Next(ss[|steps|], step)], steps + [step];
    forall i | 0 <= i < |steps'| ensures Reaches(ss'[i], steps'[i], ss'[i + 1]) {
      if i < |steps| {
        assert Reaches(ss[i], steps[i], ss[i + 1]);
      }
    }
  }

  /** Log in, refresh, log out with the first token: the login lives on. */
  lemma {:induction false} StaleLogoutKeepsLogin() returns (ss: seq<Store>, steps: seq<Step>)
    ensures IsRun(ss, steps) && steps == [Login(0), Rotation(1), Logout(HASH_A, 2)]
    ensures Alive(ss[3], FAMILY)
  {
    ss, steps := TwoSteps(0, 1);
    RunExtends(ss, steps, Logout(HASH_A, 2));
    ss, steps := ss + [Next(ss[2], Logout(HASH_A, 2))], steps + [Logout(HASH_A, 2)];
    assert ss[3].tokens[TOKEN_B].revokedAt.None?;
  }

  /** Log in, refresh, revoke the session: the login lives on. */
  lemma {:induction false} RevokeKeepsLogin() returns (ss: seq<Store>, steps: seq<Step>)
    ensures IsRun(ss, steps) && steps == [Login(0), Rotation(1), Revoke(SESSION, USER, 2)]
    ensures Revokable(ss[2], SESSION, USER) && Alive(ss[3], FAMILY)
  {
    ss, steps := TwoSteps(0, 1);
    RunExtends(ss, steps, Revoke(SESSION, USER, 2));
    ss, steps := ss + [Next(ss[2], Revoke(SESSION, USER, 2))], steps + [Revoke(SESSION, USER, 2)];
    assert ss[3].tokens[TOKEN_B].revokedAt.None?;
  }

  lemma {:induction false} LogoutAfterRevokeAll() returns (ss: seq<Store>, steps: seq<Step>)
    ensures IsRun(ss, steps) && steps == [Login(0), Rotation(1), RevokeAll(USER, 2), Logout(HASH_A, 3)]
    ensures ss[4].tokens.Keys == {TOKEN_A, TOKEN_B}
    ensures ss[4].tokens[TOKEN_A].revokedAt == Some(3) && ss[4].tokens[TOKEN_A].replacedBy == Some(TOKEN_B)
    ensures ss[4].tokens[TOKEN_B].revokedAt == Some(2)
  {
    ss, steps := TwoSteps(0, 1);
    RunExtends(ss, steps, RevokeAll(USER, 2));
    ss, steps := ss + [Next(ss[2], RevokeAll(USER, 2))], steps + [RevokeAll(USER, 2)];
    RunExtends(ss, steps, Logout(HASH_A, 3));
    ss, steps := ss + [Next(ss[3], Logout(HASH_A, 3))], steps + [Logout(HASH_A, 3)];
  }

  /** Log in, refresh, log out everywhere, log out once more with the first token: thirty days after,
      the sweep is refused. */
  lemma {:induction false} SweepRefused() returns (ss: seq<Store>, steps: seq<Step>)
    ensures IsRun(ss, steps)
    ensures steps == [Login(0), Rotation(1), RevokeAll(USER, 2), Logout(HASH_A, 3), Sweep(3 + 30 * DAY_MILLIS)]
    ensures Dangling(ss[4], Doomed(ss[4], 3 + 30 * DAY_MILLIS)) && ss[5] == ss[4]
    ensures TOKEN_B in Doomed(ss[4], 3 + 30 * DAY_MILLIS)
  {
    var late := 3 + 30 * DAY_MILLIS;
    ss, steps := LogoutAfterRevokeAll();
    assert TOKEN_A !in Doomed(ss[4], late) && TOKEN_B in Doomed(ss[4], late);
    RunExtends(ss, steps, Sweep(late));
    ss, steps := ss + [Next(ss[4], Sweep(late))], steps + [Sweep(late)];
  }

  // ----- A refresh token that outlives the rows of its family -----

  /** The first token is presented again just after the sweep took it, the second right after that. */
  function LateSteps(ttl: int): seq<Step> {
    var late := 999 * ttl + RETENTION + 1;
    [Login(999 * ttl), Rotation(999 * ttl), Sweep(late), Refresh(HASH_A, true, true, TOKEN_C, HASH_C, late),
     Refresh(HASH_B, true, true, TOKEN_D, HASH_D, late)]
  }

  /** What the sweep leaves of the two tokens. */
  function Swept(start: int): Store {
    Rotated(start, start).(tokens := map[TOKEN_B := Born(USER, None, TENANT, FAMILY, HASH_B, start)])
  }

  lemma {:induction false} SweepTakesFirst(start: int)
    ensures SweepStep(Rotated(start, start), start + RETENTION + 1) == Swept(start)
  {
    var s, late := Rotated(start, start), start + RETENTION + 1;
    assert Doomed(s, late) == {TOKEN_A};
    assert s.tokens - {TOKEN_A} == Swept(start).tokens;
  }

  lemma {:induction false} SweptAnswers(start: int)
    ensures RefreshAnswer(Swept(start), HASH_A, true, true) == NotFound
    ensures RefreshAnswer(Swept(start), HASH_B, true, true) == Accepted
  {
    LookupFinds(Swept(start), HASH_A);
    LookupOf(Swept(start), TOKEN_B);
  }

  lemma {:induction false} UnsweptAnswers(start: int, late: int)
    ensures var s := Rotated(start, start);
            && RefreshAnswer(s, HASH_A, true, true) == Theft
            && RefreshAnswer(Next(s, Refresh(HASH_A, true, true, TOKEN_C, HASH_C, late)), HASH_B, true, true) == Theft
  {
    var s := Rotated(start, start);
    RotatedRuns(start, start);
    LookupOf(s, TOKEN_A);
    var t := Next(s, Refresh(HASH_A, true, true, TOKEN_C, HASH_C, late));
    assert t.tokens == Stamp(s.tokens, Family(s, FAMILY), late);
    LookupOf(t, TOKEN_B);
  }

  function LateStores(ttl: int): seq<Store> {
    var start := 999 * ttl;
    [EMPTY, LoggedIn(start), Rotated(start, start), Swept(start), Swept(start)]
  }

  function LateBirths(ttl: int): seq<map<Id, int>> {
    var start := 999 * ttl;
    var both := map[HASH_A := start, HASH_B := start];
    [map[], map[HASH_A := start], both, both, both]
  }

  lemma {:induction false} LateTurn(ttl: int, i: nat)
    requires ttl > RETENTION + 1 && i < 4
    ensures Reaches(LateStores(ttl)[i], LateSteps(ttl)[i], LateStores(ttl)[i + 1])
    ensures LateBirths(ttl)[i + 1] == Births(LateBirths(ttl)[i], LateStores(ttl)[i], LateSteps(ttl)[i])
    ensures Presentable(ttl, LateBirths(ttl)[i], LateSteps(ttl)[i])
  {
    var start := 999 * ttl;
    if i < 2 {
      RotatedRuns(start, start);
      LookupOf(LoggedIn(start), TOKEN_A);
    } else if i == 2 {
      SweepTakesFirst(start);
    } else {
      SweptAnswers(start);
    }
  }

  ghost function AnswerTo(s: Store, step: Step): Answer
    requires step.Refresh?
  {
    RefreshAnswer(s, step.hash, step.valid, step.minted)
  }

  lemma {:induction false} LateRuns(ttl: int) returns (ss: seq<Store>, bs: seq<map<Id, int>>)
    requires ttl > RETENTION + 1
    ensures TimedRun(ttl, ss, bs, LateSteps(ttl)) && ss[3] == ss[4] == Swept(999 * ttl)
  {
    var steps, front, births := LateSteps(ttl), LateStores(ttl), LateBirths(ttl);
    ss, bs := front + [Next(front[4], steps[4])], births + [Births(births[4], front[4], steps[4])];
    forall i | 0 <= i < 5
      ensures Reaches(ss[i], steps[i], ss[i + 1]) && bs[i + 1] == Births(bs[i], ss[i], steps[i])
      ensures Presentable(ttl, bs[i], steps[i])
    {
      if i < 4 {
        LateTurn(ttl, i);
      }
    }
  }

  /** With a longer life a swept token still passes validation.  In this run its reuse is answered as
      not found, and the live token of the family is accepted afterwards. */
  lemma {:induction false} LateReuse(ttl: int) returns (ss: seq<Store>, bs: seq<map<Id, int>>)
    requires ttl > RETENTION + 1
    ensures TimedRun(ttl, ss, bs, LateSteps(ttl))
    ensures AnswerTo(ss[3], LateSteps(ttl)[3]) == NotFound && AnswerTo(ss[4], LateSteps(ttl)[4]) == Accepted
  {
    ss, bs := LateRuns(ttl);
    SweptAnswers(999 * ttl);
  }

  lemma {:induction false} LateUnswept(ttl: int, ss: seq<Store>) returns (ts: seq<Store>)
    requires |ss| == 6 && ss[0] == EMPTY
    ensures Unswept(ss, LateSteps(ttl), ts)
    ensures ts[3] == Rotated(999 * ttl, 999 * ttl) && ts[4] == Next(ts[3], LateSteps(ttl)[3])
  {
    var steps, rotated := LateSteps(ttl), Rotated(999 * ttl, 999 * ttl);
    var dead := Next(rotated, steps[3]);
    RotatedRuns(999 * ttl, 999 * ttl);
    ts := [EMPTY, LoggedIn(999 * ttl), rotated, rotated, dead, Next(dead, steps[4])];
  }

  /** Without the sweep the same reuse is theft, and the live token is refused. */
  lemma {:induction false} LateReuseUnswept(ttl: int, ss: seq<Store>) returns (ts: seq<Store>)
    requires |ss| == 6 && ss[0] == EMPTY
    ensures Unswept(ss, LateSteps(ttl), ts)
    ensures AnswerTo(ts[3], LateSteps(ttl)[3]) == Theft && AnswerTo(ts[4], LateSteps(ttl)[4]) == Theft
  {
    ts := LateUnswept(ttl, ss);
    UnsweptAnswers(999 * ttl, 999 * ttl + RETENTION + 1);
  }
}
