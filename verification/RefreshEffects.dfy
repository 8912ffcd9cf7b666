/** What any one step does to any one token or session, told from the rows alone, and what it leaves
    as it was. */
module RefreshEffects {
  import opened Common
  import opened FiniteSums
  import opened RefreshFamilies

  // ----- Answers -----

  ghost predicate Known(s: Store, hash: Id) {
    exists x :: x in s.tokens && s.tokens[x].hash == hash
  }

  ghost predicate KnownRevoked(s: Store, hash: Id) {
    exists x :: x in s.tokens && s.tokens[x].hash == hash && s.tokens[x].revokedAt.Some?
  }

  /** Each answer to a refresh has exactly one cause. */
  lemma {:induction false} AnswerIff(s: Store, hash: Id, valid: bool, minted: bool)
    requires Inv(s)
    ensures var r := RefreshAnswer(s, hash, valid, minted);
            && (r == InvalidToken <==> !valid)
            && (r == NotFound <==> valid && !Known(s, hash))
            && (r == Theft <==> valid && KnownRevoked(s, hash))
            && (r == MintFailed <==> valid && Known(s, hash) && !KnownRevoked(s, hash) && !minted)
            && (r == Accepted <==> valid && Known(s, hash) && !KnownRevoked(s, hash) && minted)
  {
    LookupFinds(s, hash);
    if Lookup(s, hash).Some? {
      var x := Lookup(s, hash).value;
      assert Known(s, hash);
    }
  }

  // ----- Tokens that were there -----

  /** The presented token `x` makes a refresh write token `id`: its whole family when it was revoked,
      itself otherwise. */
  predicate WrittenBy(s: Store, x: Id, id: Id)
    requires x in s.tokens && id in s.tokens
  {
    if s.tokens[x].revokedAt.Some? then s.tokens[id].family == s.tokens[x].family else id == x
  }

  /** The tokens a step stamps as revoked. */
  ghost predicate Stamped(s: Store, step: Step, id: Id)
    requires id in s.tokens
  {
    match step
    case Open(_, _, _, _, _, _, _) => false
    case Refresh(hash, valid, _, _, _, _) =>
      valid && exists x :: x in s.tokens && s.tokens[x].hash == hash && WrittenBy(s, x, id)
    case Logout(hash, _) => s.tokens[id].hash == hash
    case Revoke(session, user, _) =>
      && session in s.sessions && s.sessions[session].user == user && s.sessions[session].revokedAt.None?
      && s.tokens[id].session == Some(session) && s.tokens[id].user == user && s.tokens[id].revokedAt.None?
    case RevokeAll(user, _) => s.tokens[id].user == user && s.tokens[id].revokedAt.None?
    case Sweep(_) => false
  }

  /** The token that a refresh replaces. */
  predicate Replaced(s: Store, step: Step, id: Id)
    requires id in s.tokens
  {
    step.Refresh? && step.valid && step.minted && s.tokens[id].hash == step.hash && s.tokens[id].revokedAt.None?
  }

  /** The rows a sweep deletes: revoked over thirty days ago, provided no row that stays links to one. */
  predicate Old(x: Token, now: int) {
    x.revokedAt.Some? && now - x.revokedAt.value > 2_592_000_000
  }

  ghost predicate Deleted(s: Store, step: Step, id: Id)
    requires id in s.tokens
  {
    && step.Sweep? && Old(s.tokens[id], step.now)
    && forall x, y :: x in s.tokens && y in s.tokens && s.tokens[x].replacedBy == Some(y) && Old(s.tokens[y], step.now) ==>
                        Old(s.tokens[x], step.now)
  }

  lemma {:induction false} SweptIff(s: Store, now: int, id: Id)
    requires Inv(s) && id in s.tokens
    ensures id in Next(s, Sweep(now)).tokens <==> !Deleted(s, Sweep(now), id)
    ensures id in Next(s, Sweep(now)).tokens ==> Next(s, Sweep(now)).tokens[id] == s.tokens[id]
  {
    forall x | x in s.tokens ensures x in Doomed(s, now) <==> Old(s.tokens[x], now) {
    }
    if Dangling(s, Doomed(s, now)) {
      var x :| x in s.tokens && x !in Doomed(s, now) && s.tokens[x].replacedBy.Some? && s.tokens[x].replacedBy.value in Doomed(s, now);
      assert s.tokens[x].replacedBy == Some(s.tokens[x].replacedBy.value);
    }
  }

  lemma {:induction false} PresentedIs(s: Store, hash: Id, x: Id)
    requires UniqueHashes(s) && x in s.tokens && s.tokens[x].hash == hash
    ensures Lookup(s, hash) == Some(x)
  {
    LookupFinds(s, hash);
  }

  lemma {:induction false} RefreshedTokenAfter(s: Store, step: Step, id: Id)
    requires Inv(s) && Fresh(s, step) && step.Refresh? && id in s.tokens
    ensures id in Next(s, step).tokens
    ensures Next(s, step).tokens[id] ==
            s.tokens[id].(revokedAt := if Stamped(s, step, id) then Some(step.now) else s.tokens[id].revokedAt,
                          replacedBy := if Replaced(s, step, id) then Some(step.token) else s.tokens[id].replacedBy)
  {
    LookupFinds(s, step.hash);
    if step.valid && Lookup(s, step.hash).Some? {
      var x := Lookup(s, step.hash).value;
      forall y | y in s.tokens && s.tokens[y].hash == step.hash ensures y == x {
        PresentedIs(s, step.hash, y);
      }
      assert Stamped(s, step, id) <==> WrittenBy(s, x, id);
    }
  }

  /** A token after any step: gone exactly if a sweep deletes it; otherwise stamped exactly if the step
      reaches it, linked to a successor exactly if a refresh replaces it, and the same in every other
      column. */
  lemma {:induction false} TokenAfter(s: Store, step: Step, id: Id)
    requires Inv(s) && Fresh(s, step) && id in s.tokens
    ensures id in Next(s, step).tokens <==> !Deleted(s, step, id)
    ensures id in Next(s, step).tokens ==>
              Next(s, step).tokens[id] ==
              s.tokens[id].(revokedAt := if Stamped(s, step, id) then Some(step.now) else s.tokens[id].revokedAt,
                            replacedBy := if Replaced(s, step, id) then Some(step.token) else s.tokens[id].replacedBy)
  {
    match step
    case Refresh(_, _, _, _, _, _) => RefreshedTokenAfter(s, step, id);
    case Sweep(now) => SweptIff(s, now, id);
    case _ =>
  }

  // ----- New tokens -----

  /** A new token is unrevoked, lives thirty days, and comes from a login, bound to its session, or from
      an accepted refresh, in the family of the token it replaces and bound to no session. */
  lemma {:induction false} NewTokenAfter(s: Store, step: Step, id: Id)
    requires Inv(s) && Fresh(s, step) && id !in s.tokens && id in Next(s, step).tokens
    ensures var x := Next(s, step).tokens[id];
            && x.revokedAt.None? && x.replacedBy.None? && x.expiresAt == step.now + 2_592_000_000
            && (step.Open? || step.Refresh?) && id == step.token && x.hash == step.newHash
            && (step.Open? ==> x.user == step.user && x.tenant == step.tenant && x.family == step.family
                               && x.session == Some(step.session))
            && (step.Refresh? ==> x.session.None? && exists y ::
                  y in s.tokens && Replaced(s, step, y)
                  && x.user == s.tokens[y].user && x.tenant == s.tokens[y].tenant && x.family == s.tokens[y].family)
  {
    if step.Refresh? {
      LookupFinds(s, step.hash);
      var y := Lookup(s, step.hash).value;
      assert Replaced(s, step, y);
    }
  }

  /** And an accepted refresh does give one. */
  lemma {:induction false} NewTokenIff(s: Store, step: Step)
    requires Inv(s) && Fresh(s, step)
    ensures (exists id :: id in Next(s, step).tokens && id !in s.tokens) <==>
            step.Open? || (step.Refresh? && step.valid && step.minted && Known(s, step.hash) && !KnownRevoked(s, step.hash))
  {
    if step.Refresh? {
      LookupFinds(s, step.hash);
      AnswerIff(s, step.hash, step.valid, step.minted);
    }
    if step.Open? || (step.Refresh? && step.valid && step.minted && Known(s, step.hash) && !KnownRevoked(s, step.hash)) {
      assert step.token in Next(s, step).tokens && step.token !in s.tokens;
    }
  }

  // ----- Sessions -----

  predicate Closed(was: Session, step: Step, id: Id) {
    && was.revokedAt.None?
    && ((step.Revoke? && step.session == id) || step.RevokeAll?) && was.user == step.user
  }

  /** A session after any step: revoked now exactly if it was not and its user revokes it or all. */
  lemma {:induction false} SessionAfter(s: Store, step: Step, id: Id)
    requires Fresh(s, step) && id in s.sessions && id in s.issued
    ensures id in Next(s, step).sessions
    ensures Next(s, step).sessions[id] ==
            s.sessions[id].(revokedAt := if Closed(s.sessions[id], step, id) then Some(step.now) else s.sessions[id].revokedAt)
  {
    if step.Refresh? {
      LookupFinds(s, step.hash);
    }
  }

  lemma {:induction false} NewSessionAfter(s: Store, step: Step, id: Id)
    requires Fresh(s, step)
    ensures id in Next(s, step).sessions && id !in s.sessions ==>
              step.Open? && id == step.session && Next(s, step).sessions[id] == Session(step.user, step.tenant, None)
    ensures step.Open? ==> step.session in Next(s, step).sessions
  {
    if step.Refresh? {
      LookupFinds(s, step.hash);
    }
  }

  // ----- Families a step leaves alone -----

  /** A family is untouched when all its tokens are there after the step as they were, and no other. */
  ghost predicate Untouched(s: Store, t: Store, f: Id) {
    forall id :: (id in s.tokens && s.tokens[id].family == f) || (id in t.tokens && t.tokens[id].family == f) ==>
                   id in s.tokens && id in t.tokens && t.tokens[id] == s.tokens[id]
  }

  lemma {:induction false} UntouchedLives(s: Store, t: Store, f: Id)
    requires Untouched(s, t, f)
    ensures Alive(s, f) <==> Alive(t, f)
  {
    if Alive(s, f) {
      var id :| id in s.tokens && s.tokens[id].family == f && s.tokens[id].revokedAt.None?;
      assert id in t.tokens && t.tokens[id] == s.tokens[id];
    }
    if Alive(t, f) {
      var id :| id in t.tokens && t.tokens[id].family == f && t.tokens[id].revokedAt.None?;
      assert id in s.tokens && t.tokens[id] == s.tokens[id];
    }
  }

  /** The family may be reached by the step: the presented token's, the session's, the user's. */
  ghost predicate MayReach(s: Store, step: Step, f: Id) {
    match step
    case Open(_, _, _, _, family, _, _) => f == family
    case Refresh(hash, _, _, _, _, _) => exists x :: x in s.tokens && s.tokens[x].hash == hash && s.tokens[x].family == f
    case Logout(hash, _) => exists x :: x in s.tokens && s.tokens[x].hash == hash && s.tokens[x].family == f
    case Revoke(session, user, _) =>
      exists x :: x in s.tokens && s.tokens[x].family == f && s.tokens[x].session == Some(session) && s.tokens[x].user == user
    case RevokeAll(user, _) => exists x :: x in s.tokens && s.tokens[x].family == f && s.tokens[x].user == user
    case Sweep(now) => exists x :: x in s.tokens && s.tokens[x].family == f && Old(s.tokens[x], now)
  }

  lemma {:induction false} UnreachedToken(s: Store, step: Step, f: Id, id: Id)
    requires Inv(s) && Fresh(s, step) && !MayReach(s, step, f) && id in s.tokens && s.tokens[id].family == f
    ensures id in Next(s, step).tokens && Next(s, step).tokens[id] == s.tokens[id]
  {
    TokenAfter(s, step, id);
  }

  /** Every other family is exactly as it was: a refresh, a reuse or a logout on one device leaves the
      user's other logins alone, and no step of one user touches another's. */
  lemma {:induction false} OtherFamiliesUntouched(s: Store, step: Step, f: Id)
    requires Inv(s) && Fresh(s, step) && !MayReach(s, step, f)
    ensures Untouched(s, Next(s, step), f)
    ensures Alive(s, f) <==> Alive(Next(s, step), f)
  {
    var t := Next(s, step);
    forall id | id in s.tokens && s.tokens[id].family == f ensures id in t.tokens && t.tokens[id] == s.tokens[id] {
      UnreachedToken(s, step, f, id);
    }
    forall id | id in t.tokens && t.tokens[id].family == f ensures id in s.tokens {
      if id !in s.tokens {
        NewTokenAfter(s, step, id);
      } else {
        TokenAfter(s, step, id);
      }
    }
    UntouchedLives(s, t, f);
  }
}
