/** Refresh-token families: login opens a family, refresh rotates its token, reuse of a revoked
    token kills it.  The rotation is the one of section 4.14.2 of RFC 9700. */
module RefreshFamilies {
  import opened Common
  import opened FiniteSums

  datatype Token = Token(user: Id, session: Option<Id>, tenant: Id, family: Id, hash: Id, expiresAt: int,
                         revokedAt: Option<int>, replacedBy: Option<Id>)

  datatype Session = Session(user: Id, tenant: Id, revokedAt: Option<int>)

  /** `issued` holds every UUID and token hash generated so far; a new one is never among them. */
  datatype Store = Store(tokens: map<Id, Token>, sessions: map<Id, Session>, issued: set<Id>)

  const DAY_MILLIS := 86_400_000

  datatype Step =
    | Open(user: Id, tenant: Id, session: Id, token: Id, family: Id, newHash: Id, now: int)
    | Refresh(hash: Id, valid: bool, minted: bool, token: Id, newHash: Id, now: int)
    | Logout(hash: Id, now: int)
    | Revoke(session: Id, user: Id, now: int)
    | RevokeAll(user: Id, now: int)
    | Sweep(now: int)

  datatype Answer = Accepted | Theft | NotFound | InvalidToken | MintFailed

  // ----- The steps -----

  /** `UPDATE refresh_tokens SET revoked_at = now() WHERE ...`. */
  function Stamp(tokens: map<Id, Token>, ids: set<Id>, now: int): map<Id, Token> {
    map id | id in tokens :: if id in ids then tokens[id].(revokedAt := Some(now)) else tokens[id]
  }

  function Family(s: Store, f: Id): set<Id> {
    set id | id in s.tokens && s.tokens[id].family == f
  }

  function WithHash(s: Store, hash: Id): set<Id> {
    set id | id in s.tokens && s.tokens[id].hash == hash
  }

  function Unrevoked(s: Store, ids: set<Id>): set<Id> {
    set id | id in ids && id in s.tokens && s.tokens[id].revokedAt.None?
  }

  function OfSession(s: Store, session: Id, user: Id): set<Id> {
    set id | id in s.tokens && s.tokens[id].session == Some(session) && s.tokens[id].user == user
  }

  function OfUser(s: Store, user: Id): set<Id> {
    set id | id in s.tokens && s.tokens[id].user == user
  }

  ghost function Lookup(s: Store, hash: Id): Option<Id> {
    if id :| id in s.tokens && s.tokens[id].hash == hash then Some(id) else None
  }

  function Born(user: Id, session: Option<Id>, tenant: Id, family: Id, hash: Id, now: int): Token {
    Token(user, session, tenant, family, hash, now + 30 * DAY_MILLIS, None, None)
  }

  /** Registration, login and magic link all end by opening a session and a family. */
  function OpenStep(s: Store, step: Step): Store
    requires step.Open?
  {
    Store(s.tokens[step.token := Born(step.user, Some(step.session), step.tenant, step.family, step.newHash, step.now)],
          s.sessions[step.session := Session(step.user, step.tenant, None)],
          s.issued + {step.session, step.token, step.family, step.newHash})
  }

  ghost function RefreshAnswer(s: Store, hash: Id, valid: bool, minted: bool): Answer {
    if !valid then InvalidToken
    else
      match Lookup(s, hash)
      case None => NotFound
      case Some(t) => if s.tokens[t].revokedAt.Some? then Theft else if minted then Accepted else MintFailed
  }

  /** `t` is revoked and replaced by a new token of its family, bound to no session. */
  function Rotate(s: Store, t: Id, token: Id, newHash: Id, now: int): Store
    requires t in s.tokens
  {
    var prev := s.tokens[t];
    Store(s.tokens[token := Born(prev.user, None, prev.tenant, prev.family, newHash, now)]
                  [t := prev.(revokedAt := Some(now), replacedBy := Some(token))],
          s.sessions,
          s.issued + {token, newHash})
  }

  ghost function RefreshStep(s: Store, step: Step): Store
    requires step.Refresh?
  {
    match RefreshAnswer(s, step.hash, step.valid, step.minted)
    case InvalidToken => s
    case NotFound => s
    case Theft => s.(tokens := Stamp(s.tokens, Family(s, s.tokens[Lookup(s, step.hash).value].family), step.now))
    case MintFailed => s.(tokens := Stamp(s.tokens, {Lookup(s, step.hash).value}, step.now))
    case Accepted => Rotate(s, Lookup(s, step.hash).value, step.token, step.newHash, step.now)
  }

  predicate Revokable(s: Store, session: Id, user: Id) {
    session in s.sessions && s.sessions[session].user == user && s.sessions[session].revokedAt.None?
  }

  function RevokeStep(s: Store, session: Id, user: Id, now: int): Store {
    if Revokable(s, session, user)
    then Store(Stamp(s.tokens, Unrevoked(s, OfSession(s, session, user)), now),
               s.sessions[session := s.sessions[session].(revokedAt := Some(now))], s.issued)
    else s
  }

  function RevokeAllStep(s: Store, user: Id, now: int): Store {
    Store(Stamp(s.tokens, Unrevoked(s, OfUser(s, user)), now),
          map id | id in s.sessions :: if s.sessions[id].user == user && s.sessions[id].revokedAt.None?
                                       then s.sessions[id].(revokedAt := Some(now)) else s.sessions[id],
          s.issued)
  }

  /** The tokens the retention sweep wants to delete. */
  function Doomed(s: Store, now: int): set<Id> {
    set id | id in s.tokens && s.tokens[id].revokedAt.Some? && s.tokens[id].revokedAt.value < now - 30 * DAY_MILLIS
  }

  /** The foreign key on `replaced_by` refuses a DELETE that would leave a dangling link. */
  predicate Dangling(s: Store, doomed: set<Id>) {
    exists id :: id in s.tokens && id !in doomed && s.tokens[id].replacedBy.Some? && s.tokens[id].replacedBy.value in doomed
  }

  function SweepStep(s: Store, now: int): Store {
    if Dangling(s, Doomed(s, now)) then s else s.(tokens := s.tokens - Doomed(s, now))
  }

  ghost function Next(s: Store, step: Step): Store {
    match step
    case Open(_, _, _, _, _, _, _) => OpenStep(s, step)
    case Refresh(_, _, _, _, _, _) => RefreshStep(s, step)
    case Logout(hash, now) => s.(tokens := Stamp(s.tokens, WithHash(s, hash), now))
    case Revoke(session, user, now) => RevokeStep(s, session, user, now)
    case RevokeAll(user, now) => RevokeAllStep(s, user, now)
    case Sweep(now) => SweepStep(s, now)
  }

  /** Generated values are new. */
  ghost predicate Fresh(s: Store, step: Step) {
    match step
    case Open(_, _, session, token, family, newHash, _) =>
      && Distinct([session, token, family, newHash])
      && session !in s.issued && token !in s.issued && family !in s.issued && newHash !in s.issued
    case Refresh(_, _, _, token, newHash, _) => token != newHash && token !in s.issued && newHash !in s.issued
    case _ => true
  }

  const EMPTY: Store := Store(map[], map[], {})

  /** A run: the stores a sequence of steps goes through, from an empty one. */
  ghost predicate IsRun(ss: seq<Store>, steps: seq<Step>) {
    && |ss| == |steps| + 1
    && ss[0] == EMPTY
    && forall i :: 0 <= i < |steps| ==> Reaches(ss[i], steps[i], ss[i + 1])
  }

  ghost predicate Reaches(s: Store, step: Step, t: Store) {
    Fresh(s, step) && t == Next(s, step)
  }

  // ----- The handlers, statement by statement -----

  class RefreshStore {
    var tokens: map<Id, Token>
    var sessions: map<Id, Session>
    ghost var issued: set<Id>

    constructor ()
      ensures View() == EMPTY
    {
      tokens, sessions, issued := map[], map[], {};
    }

    ghost function View(): Store
      reads this
    {
      Store(tokens, sessions, issued)
    }

    /** The tail of Register, Login and VerifyMagicLink. */
    method OpenFamily(user: Id, tenant: Id, session: Id, token: Id, family: Id, newHash: Id, now: int)
      requires Fresh(View(), Open(user, tenant, session, token, family, newHash, now))
      modifies this
      ensures View() == Next(old(View()), Open(user, tenant, session, token, family, newHash, now))
    {
      sessions := sessions[session := Session(user, tenant, None)];
      tokens := tokens[token := Born(user, Some(session), tenant, family, newHash, now)];
      issued := issued + {session, token, family, newHash};
    }

    /** `valid` is the outcome of checking the token's signature, type and expiry; `minted` that of
        generating the new tokens. */
    method RefreshToken(hash: Id, valid: bool, minted: bool, token: Id, newHash: Id, now: int) returns (r: Answer)
      requires Inv(View()) && Fresh(View(), Refresh(hash, valid, minted, token, newHash, now))
      modifies this
      ensures View() == Next(old(View()), Refresh(hash, valid, minted, token, newHash, now))
      ensures r == RefreshAnswer(old(View()), hash, valid, minted)
    {
      if !valid {
        return InvalidToken;
      }
      if t :| t in tokens && tokens[t].hash == hash {
        assert Lookup(View(), hash) == Some(t);
        var stored := tokens[t];
        if stored.revokedAt.Some? {
          tokens := map id | id in tokens ::
            if tokens[id].family == stored.family then tokens[id].(revokedAt := Some(now)) else tokens[id];
          return Theft;
        }
        tokens := tokens[t := tokens[t].(revokedAt := Some(now))];
        if !minted {
          assert tokens == Stamp(old(tokens), {t}, now);
          return MintFailed;
        }
        tokens := tokens[token := Born(stored.user, None, stored.tenant, stored.family, newHash, now)];
        issued := issued + {token, newHash};
        tokens := tokens[t := tokens[t].(replacedBy := Some(token))];
        assert t != token;
        assert tokens == Rotate(old(View()), t, token, newHash, now).tokens;
        return Accepted;
      }
      return NotFound;
    }

    method LogOut(hash: Id, now: int)
      modifies this`tokens
      ensures View() == Next(old(View()), Logout(hash, now))
    {
      tokens := map id | id in tokens :: if tokens[id].hash == hash then tokens[id].(revokedAt := Some(now)) else tokens[id];
    }

    method RevokeOne(session: Id, user: Id, now: int) returns (ok: bool)
      modifies this`tokens, this`sessions
      ensures View() == Next(old(View()), Revoke(session, user, now))
      ensures ok == Revokable(old(View()), session, user)
    {
      ok := session in sessions && sessions[session].user == user && sessions[session].revokedAt.None?;
      if ok {
        sessions := sessions[session := sessions[session].(revokedAt := Some(now))];
        tokens := map id | id in tokens ::
          if tokens[id].session == Some(session) && tokens[id].user == user && tokens[id].revokedAt.None?
          then tokens[id].(revokedAt := Some(now)) else tokens[id];
      }
    }

    method RevokeEvery(user: Id, now: int) returns (count: nat)
      modifies this`tokens, this`sessions
      ensures View() == Next(old(View()), RevokeAll(user, now))
      ensures count == |set id | id in old(sessions) && old(sessions[id]).user == user && old(sessions[id]).revokedAt.None?|
    {
      count := |set id | id in sessions && sessions[id].user == user && sessions[id].revokedAt.None?|;
      sessions := map id | id in sessions :: if sessions[id].user == user && sessions[id].revokedAt.None?
                                             then sessions[id].(revokedAt := Some(now)) else sessions[id];
      tokens := map id | id in tokens :: if tokens[id].user == user && tokens[id].revokedAt.None?
                                         then tokens[id].(revokedAt := Some(now)) else tokens[id];
    }

    method SweepTokens(now: int) returns (ok: bool)
      modifies this`tokens
      ensures View() == Next(old(View()), Sweep(now))
      ensures ok == !Dangling(old(View()), Doomed(old(View()), now))
    {
      var doomed := set id | id in tokens && tokens[id].revokedAt.Some? && tokens[id].revokedAt.value < now - 30 * DAY_MILLIS;
      ok := !exists id :: id in tokens && id !in doomed && tokens[id].replacedBy.Some? && tokens[id].replacedBy.value in doomed;
      if ok {
        tokens := tokens - doomed;
      }
    }
  }

  // ----- Invariants -----

  ghost predicate UniqueHashes(s: Store) {
    forall a, b :: a in s.tokens && b in s.tokens && s.tokens[a].hash == s.tokens[b].hash ==> a == b
  }

  ghost predicate AllIssued(s: Store) {
    forall id :: id in s.tokens ==> id in s.issued && s.tokens[id].hash in s.issued && s.tokens[id].family in s.issued
  }

  /** Rotation links form one path over the tokens a family still has: each points to the next,
      all but the last are revoked, only the first may belong to a session, and all are one user's. */
  ghost predicate Chain(s: Store, f: Id, path: seq<Id>) {
    && Distinct(path)
    && Elements(path) == Family(s, f)
    && (forall i :: 0 <= i < |path| ==> path[i] in s.tokens)
    && (forall i :: 0 <= i < |path| ==> s.tokens[path[i]].user == s.tokens[path[0]].user)
    && (forall i :: 0 <= i < |path| - 1 ==> s.tokens[path[i]].replacedBy == Some(path[i + 1]))
    && (forall i :: 0 <= i < |path| - 1 ==> s.tokens[path[i]].revokedAt.Some?)
    && (path != [] ==> s.tokens[path[|path| - 1]].replacedBy.None?)
    && (forall i :: 0 < i < |path| ==> s.tokens[path[i]].session.None?)
  }

  ghost predicate Linear(s: Store) {
    forall f :: HasChain(s, f)
  }

  ghost predicate HasChain(s: Store, f: Id) {
    exists path :: Chain(s, f, path)
  }

  ghost predicate Inv(s: Store) {
    UniqueHashes(s) && AllIssued(s) && Linear(s)
  }

  /** Stamping tokens as revoked leaves every chain as it is. */
  lemma {:induction false} StampKeepsInv(s: Store, t: Store, ids: set<Id>, now: int)
    requires Inv(s) && t.tokens == Stamp(s.tokens, ids, now) && t.issued == s.issued
    ensures Inv(t)
  {
    forall f ensures HasChain(t, f) {
      assert HasChain(s, f);
      var path :| Chain(s, f, path);
      assert Family(t, f) == Family(s, f);
      assert Chain(t, f, path);
    }
  }

  lemma {:induction false} OpenKeepsInv(s: Store, step: Step)
    requires Inv(s) && step.Open? && Fresh(s, step)
    ensures Inv(OpenStep(s, step))
  {
    var t := OpenStep(s, step);
    forall f ensures HasChain(t, f) {
      assert HasChain(s, f);
      var path :| Chain(s, f, path);
      if f == step.family {
        forall id | id in s.tokens ensures s.tokens[id].family != f {
          assert s.tokens[id].family in s.issued;
        }
        assert Family(t, f) == {step.token} == Elements([step.token]);
        assert Chain(t, f, [step.token]);
      } else {
        assert Family(t, f) == Family(s, f);
        KeepChain(s, t, f, path);
      }
    }
  }

  /** A chain whose tokens a step does not touch. */
  lemma {:induction false} KeepChain(s: Store, t: Store, f: Id, path: seq<Id>)
    requires Chain(s, f, path) && Family(t, f) == Family(s, f)
    requires forall id :: id in s.tokens && s.tokens[id].family == f ==> id in t.tokens && t.tokens[id] == s.tokens[id]
    ensures Chain(t, f, path)
  {
    forall i | 0 <= i < |path| ensures path[i] in t.tokens && t.tokens[path[i]] == s.tokens[path[i]] {
      assert path[i] in Elements(path);
      var id := path[i];
      assert id in Family(s, f);
      assert id in s.tokens && s.tokens[id].family == f;
    }
  }

  /** Only the last token of a chain can be unrevoked. */
  lemma {:induction false} LiveIsLast(s: Store, f: Id, path: seq<Id>, t: Id)
    requires Chain(s, f, path) && t in Family(s, f) && s.tokens[t].revokedAt.None?
    ensures path != [] && path[|path| - 1] == t
  {
  }

  lemma {:induction false} RotateKeepsInv(s: Store, t: Id, token: Id, newHash: Id, now: int)
    requires Inv(s) && t in s.tokens && s.tokens[t].revokedAt.None?
    requires token != newHash && token !in s.issued && newHash !in s.issued
    ensures Inv(Rotate(s, t, token, newHash, now))
  {
    var after := Rotate(s, t, token, newHash, now);
    forall f ensures HasChain(after, f) {
      assert HasChain(s, f);
      var path :| Chain(s, f, path);
      if f == s.tokens[t].family {
        LiveIsLast(s, f, path, t);
        RotateExtends(s, t, token, newHash, now, path);
      } else {
        assert Family(after, f) == Family(s, f);
        KeepChain(s, after, f, path);
      }
    }
  }

  /** Rotation rewrites the last token of the path only. */
  lemma {:induction false} RotateAt(s: Store, t: Id, token: Id, newHash: Id, now: int, path: seq<Id>, i: nat)
    requires AllIssued(s) && t in s.tokens && Chain(s, s.tokens[t].family, path) && path != [] && path[|path| - 1] == t
    requires token !in s.issued && i < |path|
    ensures path[i] in s.tokens && path[i] != token
    ensures Rotate(s, t, token, newHash, now).tokens[path[i]] ==
            if i < |path| - 1 then s.tokens[path[i]] else s.tokens[t].(revokedAt := Some(now), replacedBy := Some(token))
  {
  }

  lemma {:induction false} RotateFamily(s: Store, t: Id, token: Id, newHash: Id, now: int, path: seq<Id>)
    requires AllIssued(s) && t in s.tokens && Chain(s, s.tokens[t].family, path) && token !in s.issued
    ensures Elements(path + [token]) == Family(Rotate(s, t, token, newHash, now), s.tokens[t].family)
    ensures Distinct(path + [token])
  {
    assert Family(Rotate(s, t, token, newHash, now), s.tokens[t].family) == Family(s, s.tokens[t].family) + {token};
    assert Elements(path + [token]) == Elements(path) + {token};
    assert token !in Elements(path);
  }

  lemma {:induction false} RotateExtends(s: Store, t: Id, token: Id, newHash: Id, now: int, path: seq<Id>)
    requires Inv(s) && t in s.tokens && Chain(s, s.tokens[t].family, path) && path != [] && path[|path| - 1] == t
    requires token != newHash && token !in s.issued && newHash !in s.issued
    ensures Chain(Rotate(s, t, token, newHash, now), s.tokens[t].family, path + [token])
  {
    RotateFamily(s, t, token, newHash, now, path);
    forall i | 0 <= i < |path|
      ensures path[i] in s.tokens && path[i] != token
      ensures Rotate(s, t, token, newHash, now).tokens[path[i]] ==
              if i < |path| - 1 then s.tokens[path[i]] else s.tokens[t].(revokedAt := Some(now), replacedBy := Some(token))
    {
      RotateAt(s, t, token, newHash, now, path, i);
    }
  }

  /** The foreign key lets a sweep take only an initial part of a chain. */
  lemma {:induction false} SweepKeepsInv(s: Store, now: int)
    requires Inv(s)
    ensures Inv(SweepStep(s, now))
  {
    var t, doomed := SweepStep(s, now), Doomed(s, now);
    if !Dangling(s, doomed) {
      forall f ensures HasChain(t, f) {
        assert HasChain(s, f);
        var path :| Chain(s, f, path);
        var m := Survivors(s, doomed, f, path);
        SuffixChain(s, t, doomed, f, path, m);
      }
    }
  }

  lemma {:induction false} Survivors(s: Store, doomed: set<Id>, f: Id, path: seq<Id>) returns (m: nat)
    requires Chain(s, f, path) && !Dangling(s, doomed)
    ensures m <= |path|
    ensures forall i :: 0 <= i < |path| ==> (path[i] in doomed <==> i < m)
  {
    m := 0;
    while m < |path| && path[m] in doomed
      invariant m <= |path|
      invariant forall i :: 0 <= i < m ==> path[i] in doomed
    {
      m := m + 1;
    }
    forall i | m <= i < |path| ensures path[i] !in doomed {
      NotDoomedFrom(s, doomed, f, path, m, i);
    }
  }

  lemma {:induction false} NotDoomedFrom(s: Store, doomed: set<Id>, f: Id, path: seq<Id>, m: nat, i: nat)
    requires Chain(s, f, path) && !Dangling(s, doomed) && m <= i < |path| && path[m] !in doomed
    ensures path[i] !in doomed
  {
    if i > m {
      NotDoomedFrom(s, doomed, f, path, m, i - 1);
      var x := path[i - 1];
      assert x in s.tokens && s.tokens[x].replacedBy == Some(path[i]);
    }
  }

  lemma {:induction false} SuffixChain(s: Store, t: Store, doomed: set<Id>, f: Id, path: seq<Id>, m: nat)
    requires Chain(s, f, path) && m <= |path| && t == s.(tokens := s.tokens - doomed)
    requires forall i :: 0 <= i < |path| ==> (path[i] in doomed <==> i < m)
    ensures Chain(t, f, path[m..])
  {
    var rest := path[m..];
    forall id | id in Family(t, f) ensures id in Elements(rest) {
      assert id in Elements(path);
      var i :| 0 <= i < |path| && path[i] == id;
      assert rest[i - m] == id;
    }
    forall id | id in Elements(rest) ensures id in Family(t, f) {
      var i :| 0 <= i < |rest| && rest[i] == id;
      assert path[m + i] == id && id in Elements(path);
    }
  }

  lemma {:induction false} LookupFinds(s: Store, hash: Id)
    ensures Lookup(s, hash).Some? ==> Lookup(s, hash).value in s.tokens && s.tokens[Lookup(s, hash).value].hash == hash
    ensures Lookup(s, hash).None? ==> forall id :: id in s.tokens ==> s.tokens[id].hash != hash
  {
  }

  lemma {:induction false} StepKeepsInv(s: Store, step: Step)
    requires Inv(s) && Fresh(s, step)
    ensures Inv(Next(s, step))
  {
    match step
    case Open(_, _, _, _, _, _, _) => OpenKeepsInv(s, step);
    case Refresh(hash, valid, minted, token, newHash, now) =>
      match RefreshAnswer(s, hash, valid, minted) {
        case Theft => StampKeepsInv(s, Next(s, step), Family(s, s.tokens[Lookup(s, hash).value].family), now);
        case MintFailed => StampKeepsInv(s, Next(s, step), {Lookup(s, hash).value}, now);
        case Accepted => RotateKeepsInv(s, Lookup(s, hash).value, token, newHash, now);
        case _ =>
      }
    case Logout(hash, now) => StampKeepsInv(s, Next(s, step), WithHash(s, hash), now);
    case Revoke(session, user, now) =>
      if Revokable(s, session, user) {
        StampKeepsInv(s, Next(s, step), Unrevoked(s, OfSession(s, session, user)), now);
      }
    case RevokeAll(user, now) => StampKeepsInv(s, Next(s, step), Unrevoked(s, OfUser(s, user)), now);
    case Sweep(now) => SweepKeepsInv(s, now);
  }

  lemma {:induction false} RunKeepsInv(ss: seq<Store>, steps: seq<Step>, n: nat)
    requires IsRun(ss, steps) && n < |ss|
    ensures Inv(ss[n])
  {
    if n == 0 {
      EmptyInv();
    } else {
      RunKeepsInv(ss, steps, n - 1);
      RunStepKeepsInv(ss, steps, n - 1);
    }
  }

  lemma {:induction false} EmptyInv()
    ensures Inv(EMPTY)
  {
    forall f ensures HasChain(EMPTY, f) {
      assert Family(EMPTY, f) == {};
      assert Chain(EMPTY, f, []);
    }
  }

  lemma {:induction false} RunStepKeepsInv(ss: seq<Store>, steps: seq<Step>, n: nat)
    requires IsRun(ss, steps) && n < |steps| && Inv(ss[n])
    ensures Inv(ss[n + 1])
  {
    assert Reaches(ss[n], steps[n], ss[n + 1]);
    StepKeepsInv(ss[n], steps[n]);
  }

  /** Family linearity, sweep included: at every point of every run the tokens of a family form one
      rotation path of a single user, and at most one of them, the last, is unrevoked. */
  lemma {:induction false} FamilyLinearity(ss: seq<Store>, steps: seq<Step>, n: nat, f: Id)
    requires IsRun(ss, steps) && n < |ss|
    ensures exists path :: Chain(ss[n], f, path)
    ensures forall a, b :: a in Family(ss[n], f) && b in Family(ss[n], f) ==>
              && ss[n].tokens[a].user == ss[n].tokens[b].user
              && (ss[n].tokens[a].revokedAt.None? && ss[n].tokens[b].revokedAt.None? ==> a == b)
  {
    var s := ss[n];
    RunKeepsInv(ss, steps, n);
    assert HasChain(s, f);
    var path :| Chain(s, f, path);
    forall a, b | a in Family(s, f) && b in Family(s, f)
      ensures s.tokens[a].user == s.tokens[b].user
      ensures s.tokens[a].revokedAt.None? && s.tokens[b].revokedAt.None? ==> a == b
    {
      assert a in Elements(path) && b in Elements(path);
      if s.tokens[a].revokedAt.None? && s.tokens[b].revokedAt.None? {
        LiveIsLast(s, f, path, a);
        LiveIsLast(s, f, path, b);
      }
    }
  }

  /** A token comes from a login or from the token it replaced. */
  ghost predicate HasOrigin(s: Store, id: Id)
    requires id in s.tokens
  {
    s.tokens[id].session.Some? || exists x :: x in s.tokens && s.tokens[x].replacedBy == Some(id)
  }

  ghost predicate AllHaveOrigin(s: Store) {
    forall id :: id in s.tokens ==> HasOrigin(s, id)
  }

  lemma {:induction false} OriginKept(s: Store, t: Store, id: Id)
    requires id in s.tokens && HasOrigin(s, id) && id in t.tokens && t.tokens[id].session == s.tokens[id].session
    requires forall x :: x in s.tokens && s.tokens[x].replacedBy.Some? ==>
               x in t.tokens && t.tokens[x].replacedBy == s.tokens[x].replacedBy
    ensures HasOrigin(t, id)
  {
  }

  lemma {:induction false} StepKeepsLinks(s: Store, step: Step, x: Id)
    requires Inv(s) && Fresh(s, step) && !step.Sweep? && x in s.tokens && s.tokens[x].replacedBy.Some?
    ensures x in Next(s, step).tokens && Next(s, step).tokens[x].replacedBy == s.tokens[x].replacedBy
  {
    LinkedIsRevoked(s, x);
    if step.Refresh? {
      LookupFinds(s, step.hash);
    }
  }

  lemma {:induction false} BornWithOrigin(s: Store, step: Step, id: Id)
    requires Inv(s) && Fresh(s, step) && !step.Sweep? && id !in s.tokens && id in Next(s, step).tokens
    ensures HasOrigin(Next(s, step), id)
  {
    if step.Refresh? {
      LookupFinds(s, step.hash);
      var t, x := Next(s, step), Lookup(s, step.hash).value;
      assert x in t.tokens && t.tokens[x].replacedBy == Some(id);
    }
  }

  lemma {:induction false} StepKeepsOrigins(s: Store, step: Step)
    requires Inv(s) && AllHaveOrigin(s) && Fresh(s, step) && !step.Sweep?
    ensures AllHaveOrigin(Next(s, step))
  {
    var t := Next(s, step);
    forall x | x in s.tokens && s.tokens[x].replacedBy.Some?
      ensures x in t.tokens && t.tokens[x].replacedBy == s.tokens[x].replacedBy
    {
      StepKeepsLinks(s, step, x);
    }
    forall id | id in t.tokens ensures HasOrigin(t, id) {
      if id in s.tokens {
        OriginKept(s, t, id);
      } else {
        BornWithOrigin(s, step, id);
      }
    }
  }

  lemma {:induction false} NoSweepKeepsOrigins(ss: seq<Store>, steps: seq<Step>, n: nat)
    requires IsRun(ss, steps) && n < |ss| && forall i :: 0 <= i < n ==> !steps[i].Sweep?
    ensures AllHaveOrigin(ss[n])
  {
    if n > 0 {
      NoSweepKeepsOrigins(ss, steps, n - 1);
      RunKeepsInv(ss, steps, n - 1);
      assert Reaches(ss[n - 1], steps[n - 1], ss[n]);
      StepKeepsOrigins(ss[n - 1], steps[n - 1]);
    }
  }

  /** Until a sweep runs, the path of a family starts at its login token. */
  lemma {:induction false} PathStartsAtLogin(ss: seq<Store>, steps: seq<Step>, n: nat, f: Id, path: seq<Id>)
    requires IsRun(ss, steps) && n < |ss| && forall i :: 0 <= i < n ==> !steps[i].Sweep?
    requires Chain(ss[n], f, path) && path != []
    ensures ss[n].tokens[path[0]].session.Some?
  {
    var s := ss[n];
    RunKeepsInv(ss, steps, n);
    NoSweepKeepsOrigins(ss, steps, n);
    assert path[0] in Elements(path);
    assert HasOrigin(s, path[0]);
    forall x | x in s.tokens ensures s.tokens[x].replacedBy != Some(path[0]) {
      NoLinkToFirst(s, f, path, x);
    }
  }

  lemma {:induction false} NoLinkToFirst(s: Store, f: Id, path: seq<Id>, x: Id)
    requires Inv(s) && Chain(s, f, path) && path != [] && x in s.tokens
    ensures s.tokens[x].replacedBy != Some(path[0])
  {
    assert path[0] in Elements(path);
    if s.tokens[x].replacedBy.Some? {
      LinkedIsRevoked(s, x);
      if s.tokens[x].family == f {
        assert x in Elements(path);
        var i :| 0 <= i < |path| && path[i] == x;
        assert i < |path| - 1 && path[i + 1] != path[0];
      }
    }
  }

  // ----- Dead stays dead -----

  ghost predicate Alive(s: Store, f: Id) {
    exists id :: id in s.tokens && s.tokens[id].family == f && s.tokens[id].revokedAt.None?
  }

  /** A hash that some handler gave out and no unrevoked token carries. */
  ghost predicate Spent(s: Store, hash: Id) {
    hash in s.issued && forall id :: id in s.tokens && s.tokens[id].hash == hash ==> s.tokens[id].revokedAt.Some?
  }

  ghost predicate Accepts(s: Store, step: Step) {
    step.Refresh? && RefreshAnswer(s, step.hash, step.valid, step.minted) == Accepted
  }

  lemma {:induction false} DeadStep(s: Store, step: Step, f: Id)
    requires Inv(s) && Fresh(s, step) && f in s.issued && !Alive(s, f)
    ensures f in Next(s, step).issued && !Alive(Next(s, step), f)
  {
    var t := Next(s, step);
    if step.Refresh? {
      LookupFinds(s, step.hash);
    }
    assert s.issued <= t.issued;
    forall id | id in t.tokens && t.tokens[id].family == f ensures t.tokens[id].revokedAt.Some? {
      if id in s.tokens {
        assert s.tokens[id].family == f;
      }
    }
  }

  lemma {:induction false} SpentStep(s: Store, step: Step, hash: Id)
    requires Inv(s) && Fresh(s, step) && Spent(s, hash)
    ensures Spent(Next(s, step), hash)
  {
    if step.Refresh? {
      LookupFinds(s, step.hash);
    }
  }

  lemma {:induction false} DeadRunStep(ss: seq<Store>, steps: seq<Step>, n: nat, f: Id)
    requires IsRun(ss, steps) && n < |steps| && f in ss[n].issued && !Alive(ss[n], f)
    ensures f in ss[n + 1].issued && !Alive(ss[n + 1], f)
  {
    RunKeepsInv(ss, steps, n);
    assert Reaches(ss[n], steps[n], ss[n + 1]);
    DeadStep(ss[n], steps[n], f);
  }

  lemma {:induction false} SpentRunStep(ss: seq<Store>, steps: seq<Step>, n: nat, hash: Id)
    requires IsRun(ss, steps) && n < |steps| && Spent(ss[n], hash)
    ensures Spent(ss[n + 1], hash)
  {
    RunKeepsInv(ss, steps, n);
    assert Reaches(ss[n], steps[n], ss[n + 1]);
    SpentStep(ss[n], steps[n], hash);
  }

  /** A family without an unrevoked token never has one again. */
  lemma {:induction false} DeadStaysDead(ss: seq<Store>, steps: seq<Step>, i: nat, j: nat, f: Id)
    requires IsRun(ss, steps) && i <= j < |ss|
    requires f in ss[i].issued && !Alive(ss[i], f)
    ensures f in ss[j].issued && !Alive(ss[j], f)
  {
    if i < j {
      DeadStaysDead(ss, steps, i, j - 1, f);
      DeadRunStep(ss, steps, j - 1, f);
    }
  }

  lemma {:induction false} SpentStaysSpent(ss: seq<Store>, steps: seq<Step>, i: nat, j: nat, hash: Id)
    requires IsRun(ss, steps) && i <= j < |ss| && Spent(ss[i], hash)
    ensures Spent(ss[j], hash)
  {
    if i < j {
      SpentStaysSpent(ss, steps, i, j - 1, hash);
      SpentRunStep(ss, steps, j - 1, hash);
    }
  }

  /** An accepted token is spent by its acceptance. */
  lemma {:induction false} AcceptSpends(s: Store, step: Step)
    requires Inv(s) && Fresh(s, step) && Accepts(s, step)
    ensures Spent(Next(s, step), step.hash)
  {
    LookupFinds(s, step.hash);
  }

  lemma {:induction false} SpentIsRefused(s: Store, step: Step)
    requires step.Refresh? && Spent(s, step.hash)
    ensures !Accepts(s, step)
  {
  }

  /** Each token is accepted at most once per run. */
  lemma {:induction false} AcceptedOnce(ss: seq<Store>, steps: seq<Step>, i: nat, j: nat)
    requires IsRun(ss, steps) && i < j < |steps| && Accepts(ss[i], steps[i])
    requires steps[j].Refresh? && steps[j].hash == steps[i].hash
    ensures !Accepts(ss[j], steps[j])
  {
    RunKeepsInv(ss, steps, i);
    assert Reaches(ss[i], steps[i], ss[i + 1]);
    AcceptSpends(ss[i], steps[i]);
    SpentStaysSpent(ss, steps, i + 1, j, steps[i].hash);
    SpentIsRefused(ss[j], steps[j]);
  }

  /** A global logout spends every token of the user and kills every family. */
  lemma {:induction false} RevokeAllKills(s: Store, user: Id, now: int, id: Id)
    requires Inv(s) && id in s.tokens && s.tokens[id].user == user
    ensures var t := Next(s, RevokeAll(user, now));
            && Spent(t, s.tokens[id].hash)
            && s.tokens[id].family in t.issued && !Alive(t, s.tokens[id].family)
  {
    var f := s.tokens[id].family;
    assert HasChain(s, f);
    var path :| Chain(s, f, path);
    forall x | x in Family(s, f) ensures s.tokens[x].user == user {
      assert x in Elements(path) && id in Elements(path);
    }
  }

  /** After a global logout no token the user had is ever accepted again, and every family of the
      user is dead for good. */
  lemma {:induction false} RevokeAllIsFinal(ss: seq<Store>, steps: seq<Step>, i: nat, j: nat, id: Id)
    requires IsRun(ss, steps) && i < j < |ss| && steps[i].RevokeAll?
    requires id in ss[i].tokens && ss[i].tokens[id].user == steps[i].user
    ensures j < |steps| && steps[j].Refresh? && steps[j].hash == ss[i].tokens[id].hash
            ==> !Accepts(ss[j], steps[j])
    ensures !Alive(ss[j], ss[i].tokens[id].family)
  {
    RunKeepsInv(ss, steps, i);
    assert Reaches(ss[i], steps[i], ss[i + 1]);
    RevokeAllKills(ss[i], steps[i].user, steps[i].now, id);
    SpentStaysSpent(ss, steps, i + 1, j, ss[i].tokens[id].hash);
    DeadStaysDead(ss, steps, i + 1, j, ss[i].tokens[id].family);
    if j < |steps| && steps[j].Refresh? && steps[j].hash == ss[i].tokens[id].hash {
      SpentIsRefused(ss[j], steps[j]);
    }
  }

  /** Presenting a revoked token kills its whole family. */
  lemma {:induction false} ReuseKillsFamily(s: Store, step: Step)
    requires Inv(s) && step.Refresh? && RefreshAnswer(s, step.hash, step.valid, step.minted) == Theft
    ensures !Alive(Next(s, step), s.tokens[Lookup(s, step.hash).value].family)
  {
    LookupFinds(s, step.hash);
  }

  // ----- What logout and session revocation reach, exactly -----

  /** Logging out ends the family if and only if the token presented is its unrevoked one (or the
      family was dead already): with an older token of the family the session lives on. */
  lemma {:induction false} LogoutEndsFamilyIff(s: Store, id: Id, now: int)
    requires Inv(s) && id in s.tokens
    ensures !Alive(Next(s, Logout(s.tokens[id].hash, now)), s.tokens[id].family)
       <==> s.tokens[id].revokedAt.None? || !Alive(s, s.tokens[id].family)
  {
    var f, t := s.tokens[id].family, Next(s, Logout(s.tokens[id].hash, now));
    assert HasChain(s, f);
    var path :| Chain(s, f, path);
    if Alive(s, f) {
      var x :| x in s.tokens && s.tokens[x].family == f && s.tokens[x].revokedAt.None?;
      if s.tokens[id].revokedAt.None? {
        forall y | y in s.tokens && s.tokens[y].family == f && s.tokens[y].revokedAt.None? ensures y == id {
          LiveIsLast(s, f, path, y);
          LiveIsLast(s, f, path, id);
        }
      } else {
        assert x in t.tokens && t.tokens[x].revokedAt.None?;
      }
    }
  }

  /** Revoking a session ends a living family if and only if all that is left of the family is the one
      login token of that session: once rotated, or with its login row swept away, the family is not
      reached, because rotated tokens belong to no session. */
  lemma {:induction false} RevokeEndsFamilyIff(s: Store, f: Id, path: seq<Id>, session: Id, user: Id, now: int)
    requires Inv(s) && Chain(s, f, path) && Alive(s, f) && Revokable(s, session, user)
    ensures !Alive(Next(s, Revoke(session, user, now)), f) <==>
            |path| == 1 && s.tokens[path[0]].session == Some(session) && s.tokens[path[0]].user == user
  {
    var t := Next(s, Revoke(session, user, now));
    var x :| x in s.tokens && s.tokens[x].family == f && s.tokens[x].revokedAt.None?;
    LiveIsLast(s, f, path, x);
    if |path| == 1 && s.tokens[path[0]].session == Some(session) && s.tokens[path[0]].user == user {
      forall y | y in t.tokens && t.tokens[y].family == f ensures t.tokens[y].revokedAt.Some? {
        assert y in Elements(path);
      }
    } else {
      assert t.tokens[x].revokedAt.None?;
    }
  }

  // ----- When the sweep can run at all -----

  /** A rotated token was stamped no later than the token that replaced it. */
  ghost predicate StampsOrdered(s: Store) {
    forall id :: id in s.tokens ==> LinkOrdered(s, id)
  }

  ghost predicate LinkOrdered(s: Store, id: Id)
    requires id in s.tokens
  {
    var next := s.tokens[id].replacedBy;
    next.Some? && next.value in s.tokens && s.tokens[next.value].revokedAt.Some? ==>
      s.tokens[id].revokedAt.Some? && s.tokens[id].revokedAt.value <= s.tokens[next.value].revokedAt.value
  }

  lemma {:induction false} LinkedIsRevoked(s: Store, id: Id)
    requires Inv(s) && id in s.tokens && s.tokens[id].replacedBy.Some?
    ensures s.tokens[id].revokedAt.Some? && s.tokens[id].replacedBy.value in s.tokens
    ensures s.tokens[s.tokens[id].replacedBy.value].family == s.tokens[id].family
  {
    var f := s.tokens[id].family;
    assert HasChain(s, f);
    var path :| Chain(s, f, path);
    assert id in Elements(path);
    var i :| 0 <= i < |path| && path[i] == id;
    assert path[i + 1] in Elements(path);
  }

  /** The retention sweep is never refused, now or later, if and only if stamps follow the links. */
  lemma {:induction false} SweepNeverRefusedIff(s: Store)
    requires Inv(s)
    ensures (forall now :: !Dangling(s, Doomed(s, now))) <==> StampsOrdered(s)
  {
    if StampsOrdered(s) {
      forall now ensures !Dangling(s, Doomed(s, now)) {
        forall id | id in s.tokens && s.tokens[id].replacedBy.Some? && s.tokens[id].replacedBy.value in Doomed(s, now)
          ensures id in Doomed(s, now)
        {
          assert LinkOrdered(s, id);
        }
      }
    } else {
      var id :| id in s.tokens && !LinkOrdered(s, id);
      LinkedIsRevoked(s, id);
      var now := s.tokens[id].revokedAt.value + 30 * DAY_MILLIS;
      assert s.tokens[id].replacedBy.value in Doomed(s, now) && id !in Doomed(s, now);
      assert Dangling(s, Doomed(s, now));
    }
  }

  /** Logging out once more with a rotated token whose successor was revoked earlier. */
  ghost predicate StaleLogout(s: Store, step: Step) {
    step.Logout? && exists id :: id in s.tokens && s.tokens[id].hash == step.hash && StaleLink(s, id, step.now)
  }

  ghost predicate StaleLink(s: Store, id: Id, now: int)
    requires id in s.tokens
  {
    var next := s.tokens[id].replacedBy;
    next.Some? && next.value in s.tokens && s.tokens[next.value].revokedAt.Some? && s.tokens[next.value].revokedAt.value < now
  }

  /** No stamp lies in the future of the step's clock. */
  ghost predicate ClockAfter(s: Store, now: int) {
    forall id :: id in s.tokens && s.tokens[id].revokedAt.Some? ==> s.tokens[id].revokedAt.value <= now
  }

  lemma {:induction false} StampKeepsOrder(s: Store, t: Store, ids: set<Id>, now: int)
    requires Inv(s) && StampsOrdered(s) && ClockAfter(s, now) && t.tokens == Stamp(s.tokens, ids, now)
    requires forall id :: id in ids && id in s.tokens && s.tokens[id].replacedBy.Some? ==>
               s.tokens[id].replacedBy.value in ids || !StaleLink(s, id, now)
    ensures StampsOrdered(t)
  {
    forall id | id in t.tokens ensures LinkOrdered(t, id) {
      assert LinkOrdered(s, id);
      if s.tokens[id].replacedBy.Some? {
        LinkedIsRevoked(s, id);
      }
    }
  }

  lemma {:induction false} StaleBreaksOrder(s: Store, step: Step, id: Id)
    requires Inv(s) && step.Logout? && id in s.tokens && s.tokens[id].hash == step.hash && StaleLink(s, id, step.now)
    ensures !StampsOrdered(Next(s, step))
  {
    var t, next := Next(s, step), s.tokens[id].replacedBy.value;
    assert HasChain(s, s.tokens[id].family);
    var path :| Chain(s, s.tokens[id].family, path);
    assert id in Elements(path);
    var i :| 0 <= i < |path| && path[i] == id;
    assert i < |path| - 1 && next == path[i + 1];
    assert next != id;
    assert s.tokens[next].hash != step.hash;
    assert t.tokens[next] == s.tokens[next];
    assert !LinkOrdered(t, id);
  }

  lemma {:induction false} UnrevokedHasNoLink(s: Store, id: Id)
    requires Inv(s) && id in s.tokens && s.tokens[id].revokedAt.None?
    ensures s.tokens[id].replacedBy.None?
  {
    if s.tokens[id].replacedBy.Some? {
      LinkedIsRevoked(s, id);
    }
  }

  lemma {:induction false} UnrevokedKeepOrder(s: Store, t: Store, ids: set<Id>, now: int)
    requires Inv(s) && StampsOrdered(s) && ClockAfter(s, now) && t.tokens == Stamp(s.tokens, Unrevoked(s, ids), now)
    ensures StampsOrdered(t)
  {
    forall id | id in Unrevoked(s, ids) ensures s.tokens[id].replacedBy.None? {
      UnrevokedHasNoLink(s, id);
    }
    StampKeepsOrder(s, t, Unrevoked(s, ids), now);
  }

  lemma {:induction false} RefreshKeepsOrder(s: Store, step: Step)
    requires Inv(s) && Fresh(s, step) && StampsOrdered(s) && ClockAfter(s, step.now) && step.Refresh?
    ensures StampsOrdered(Next(s, step))
  {
    LookupFinds(s, step.hash);
    var t := Next(s, step);
    match RefreshAnswer(s, step.hash, step.valid, step.minted)
    case Theft =>
      var ids := Family(s, s.tokens[Lookup(s, step.hash).value].family);
      forall id | id in ids && s.tokens[id].replacedBy.Some? ensures s.tokens[id].replacedBy.value in ids {
        LinkedIsRevoked(s, id);
      }
      StampKeepsOrder(s, t, ids, step.now);
    case MintFailed =>
      UnrevokedHasNoLink(s, Lookup(s, step.hash).value);
      StampKeepsOrder(s, t, {Lookup(s, step.hash).value}, step.now);
    case Accepted =>
      forall id | id in t.tokens ensures LinkOrdered(t, id) {
        if id in s.tokens && s.tokens[id].replacedBy.Some? {
          LinkedIsRevoked(s, id);
          assert LinkOrdered(s, id);
        }
      }
    case _ =>
  }

  /** On a clock that does not go back, stamps stay in order through every step but one kind: a
      logout with a token that was rotated away and whose successor is already revoked. */
  lemma {:induction false} StampsOrderedIff(s: Store, step: Step)
    requires Inv(s) && Fresh(s, step) && StampsOrdered(s) && ClockAfter(s, step.now)
    ensures StampsOrdered(Next(s, step)) <==> !StaleLogout(s, step)
  {
    var t := Next(s, step);
    match step
    case Open(_, _, _, _, _, _, _) =>
      forall id | id in t.tokens ensures LinkOrdered(t, id) {
        if id in s.tokens && s.tokens[id].replacedBy.Some? {
          LinkedIsRevoked(s, id);
          assert LinkOrdered(s, id);
        }
      }
    case Refresh(_, _, _, _, _, _) => RefreshKeepsOrder(s, step);
    case Logout(hash, now) =>
      if StaleLogout(s, step) {
        var id :| id in s.tokens && s.tokens[id].hash == hash && StaleLink(s, id, now);
        StaleBreaksOrder(s, step, id);
      } else {
        StampKeepsOrder(s, t, WithHash(s, hash), now);
      }
    case Revoke(session, user, now) =>
      if Revokable(s, session, user) {
        UnrevokedKeepOrder(s, t, OfSession(s, session, user), now);
      }
    case RevokeAll(user, now) => UnrevokedKeepOrder(s, t, OfUser(s, user), now);
    case Sweep(now) =>
      forall id | id in t.tokens ensures LinkOrdered(t, id) {
        assert LinkOrdered(s, id);
      }
  }

  // ----- The same over runs -----

  /** The clock of a run never goes back. */
  ghost predicate Forward(steps: seq<Step>) {
    forall i, j :: 0 <= i <= j < |steps| ==> steps[i].now <= steps[j].now
  }

  lemma {:induction false} StepKeepsClock(s: Store, step: Step)
    requires ClockAfter(s, step.now)
    ensures ClockAfter(Next(s, step), step.now)
  {
    if step.Refresh? {
      LookupFinds(s, step.hash);
    }
  }

  lemma {:induction false} RunKeepsClock(ss: seq<Store>, steps: seq<Step>, n: nat)
    requires IsRun(ss, steps) && Forward(steps) && n < |steps|
    ensures ClockAfter(ss[n], steps[n].now)
  {
    if n > 0 {
      RunKeepsClock(ss, steps, n - 1);
      assert Reaches(ss[n - 1], steps[n - 1], ss[n]);
      StepKeepsClock(ss[n - 1], steps[n - 1]);
    }
  }

  lemma {:induction false} RunStepOrderedIff(ss: seq<Store>, steps: seq<Step>, n: nat)
    requires IsRun(ss, steps) && Forward(steps) && n < |steps| && StampsOrdered(ss[n])
    ensures StampsOrdered(ss[n + 1]) <==> !StaleLogout(ss[n], steps[n])
  {
    RunKeepsInv(ss, steps, n);
    RunKeepsClock(ss, steps, n);
    assert Reaches(ss[n], steps[n], ss[n + 1]);
    StampsOrderedIff(ss[n], steps[n]);
  }

  lemma {:induction false} OrderedUntil(ss: seq<Store>, steps: seq<Step>, n: nat)
    requires IsRun(ss, steps) && Forward(steps) && n < |ss|
    requires forall i :: 0 <= i < n ==> !StaleLogout(ss[i], steps[i])
    ensures StampsOrdered(ss[n])
  {
    if n > 0 {
      OrderedUntil(ss, steps, n - 1);
      RunStepOrderedIff(ss, steps, n - 1);
    }
  }

  /** No sweep, at whatever clock, would be refused in this store. */
  ghost predicate Sweepable(s: Store) {
    forall now :: !Dangling(s, Doomed(s, now))
  }

  /** Over a run whose clock never goes back, every sweep would succeed at every point if and only if
      the run has no stale logout. */
  lemma {:induction false} RunSweepableIff(ss: seq<Store>, steps: seq<Step>)
    requires IsRun(ss, steps) && Forward(steps)
    ensures (forall n :: 0 <= n < |ss| ==> Sweepable(ss[n])) <==>
            forall i :: 0 <= i < |steps| ==> !StaleLogout(ss[i], steps[i])
  {
    forall n | 0 <= n < |ss| ensures Sweepable(ss[n]) <==> StampsOrdered(ss[n]) {
      RunKeepsInv(ss, steps, n);
      SweepNeverRefusedIff(ss[n]);
    }
    if forall n :: 0 <= n < |ss| ==> Sweepable(ss[n]) {
      forall i | 0 <= i < |steps| ensures !StaleLogout(ss[i], steps[i]) {
        assert Sweepable(ss[i]) && Sweepable(ss[i + 1]);
        RunStepOrderedIff(ss, steps, i);
      }
    }
    if forall i :: 0 <= i < |steps| ==> !StaleLogout(ss[i], steps[i]) {
      forall n | 0 <= n < |ss| ensures Sweepable(ss[n]) {
        OrderedUntil(ss, steps, n);
      }
    }
  }
}
