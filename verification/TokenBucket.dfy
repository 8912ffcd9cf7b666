/** The Redis token bucket: a Lua script that keeps whole tokens and a time stamp in a hash
    with a time to live.  Instants and durations are in milliseconds. */
module TokenBucket {
  import opened Common

  /** The hash stored under one key, with the instant after which Redis drops it. */
  datatype Entry = Entry(tokens: int, last: int, expireAt: int)

  /** What one run of the script leaves in the hash and answers. */
  datatype Outcome = Outcome(entry: Entry, allowed: bool)

  datatype Config = Config(limit: int, window: int) {
    predicate Valid() {
      limit >= 0 && window > 0
    }
  }

  /** Rounds up to whole seconds, as the EXPIRE argument does. */
  function TtlMillis(window: int): int {
    (window + 999) / 1000 * 1000
  }

  function Min(a: int, b: int): int {
    if a < b then a else b
  }

  /** Tokens earned in `elapsed`.  Euclidean division by a positive window is Lua's floor. */
  function Refill(c: Config, elapsed: int): int
    requires c.window > 0
  {
    elapsed * c.limit / c.window
  }

  /** Tokens on hand when a call arrives; a missing hash means a full bucket. */
  function OnHand(c: Config, found: Option<Entry>, now: int): int
    requires c.window > 0
  {
    match found
    case None => Min(c.limit, c.limit + Refill(c, 0))
    case Some(e) => Min(c.limit, e.tokens + Refill(c, now - e.last))
  }

  function Script(c: Config, found: Option<Entry>, now: int): Outcome
    requires c.window > 0
  {
    var tokens := OnHand(c, found, now);
    var allowed := tokens > 0;
    Outcome(Entry(if allowed then tokens - 1 else tokens, now, now + TtlMillis(c.window)), allowed)
  }

  /** The hash as Redis shows it at `now`: an expired key reads as missing.  With `ttl` false
      keys never expire. */
  function Visible(stored: Option<Entry>, now: int, ttl: bool): Option<Entry> {
    if stored.Some? && ttl && now > stored.value.expireAt then None else stored
  }

  class Client {
    /** The Redis keyspace. */
    var hashes: map<string, Entry>

    constructor ()
      ensures hashes == map[]
    {
      hashes := map[];
    }

    function Stored(key: string): Option<Entry>
      reads this
    {
      if key in hashes then Some(hashes[key]) else None
    }

    /** A window under a millisecond arrives as zero.  The script then divides by zero: the refill is
        infinite or not a number, the minimum leaves the limit either way, and a time to live of zero
        drops the hash at once. */
    method RateLimit(key: string, limit: int, window: int, now: int) returns (allowed: bool, remaining: int)
      requires window >= 0
      requires window == 0 ==> limit >= 0 && (key in hashes ==> hashes[key].last <= now)
      modifies this
      ensures window > 0 ==>
                var o := Script(Config(limit, window), Visible(old(Stored(key)), now, true), now);
                && allowed == o.allowed && remaining == o.entry.tokens
                && hashes == old(hashes)[key := o.entry]
      ensures window == 0 ==>
                && allowed == (limit > 0) && remaining == (if limit > 0 then limit - 1 else 0)
                && hashes == old(hashes) - {key}
    {
      var tokens, last := limit, now;
      if key in hashes && now <= hashes[key].expireAt {
        tokens, last := hashes[key].tokens, hashes[key].last;
      }

      if window == 0 {
        tokens := limit;
      } else {
        var elapsed := now - last;
        var refill := elapsed * limit / window;
        tokens := Min(limit, tokens + refill);
      }

      allowed := false;
      if tokens > 0 {
        tokens := tokens - 1;
        allowed := true;
      }

      hashes := hashes[key := Entry(tokens, now, now + TtlMillis(window))];
      if window == 0 {
        hashes := hashes - {key};
      }
      remaining := tokens;
    }
  }

  // ----- Traces of calls on one key -----

  /** The instants at which calls arrive, in order, on a clock that never goes back. */
  ghost predicate Monotone(times: seq<int>) {
    forall i, j :: 0 <= i <= j < |times| ==> times[i] <= times[j]
  }

  /** A hash some earlier calls may have left behind before the trace starts. */
  ghost predicate Start(c: Config, e0: Option<Entry>, times: seq<int>) {
    && c.Valid()
    && Monotone(times)
    && (e0.Some? ==>
          && 0 <= e0.value.tokens <= c.limit
          && e0.value.expireAt == e0.value.last + TtlMillis(c.window)
          && forall i :: 0 <= i < |times| ==> e0.value.last <= times[i])
  }

  /** What is stored after the first n calls. */
  ghost function StateAt(c: Config, e0: Option<Entry>, times: seq<int>, ttl: bool, n: nat): Option<Entry>
    requires c.Valid() && n <= |times|
    decreases n, 0
  {
    if n == 0 then e0 else Some(CallAt(c, e0, times, ttl, n - 1).entry)
  }

  /** The n-th call of the trace. */
  ghost function CallAt(c: Config, e0: Option<Entry>, times: seq<int>, ttl: bool, n: nat): Outcome
    requires c.Valid() && n < |times|
    decreases n, 1
  {
    Script(c, Visible(StateAt(c, e0, times, ttl, n), times[n], ttl), times[n])
  }

  /** How many of the calls i .. j - 1 are admitted. */
  ghost function Admitted(c: Config, e0: Option<Entry>, times: seq<int>, i: nat, j: nat): nat
    requires c.Valid() && i <= j <= |times|
  {
    if i == j then 0
    else Admitted(c, e0, times, i, j - 1) + if CallAt(c, e0, times, true, j - 1).allowed then 1 else 0
  }

  lemma Cancel(w: int, x: int, y: int)
    requires w > 0 && w * x < w * y
    ensures x < y
  {
  }

  lemma {:induction false} DivMonotone(a: int, b: int, w: int)
    requires w > 0 && a <= b
    ensures a / w <= b / w
  {
    var p, q := a / w, b / w;
    assert w * p <= a && b < w * q + w;
    assert w * (q + 1) == w * q + w;
    Cancel(w, p, q + 1);
  }

  lemma {:induction false} DivSuperadditive(a: int, b: int, w: int)
    requires w > 0
    ensures a / w + b / w <= (a + b) / w
  {
    var p, q, s := a / w, b / w, (a + b) / w;
    assert w * p <= a && w * q <= b && a + b < w * s + w;
    assert w * (p + q) == w * p + w * q;
    assert w * (s + 1) == w * s + w;
    Cancel(w, p + q, s + 1);
  }

  lemma {:induction false} RefillNonNegative(c: Config, elapsed: int)
    requires c.Valid() && elapsed >= 0
    ensures Refill(c, elapsed) >= 0
  {
  }

  lemma {:induction false} WindowRefillsAll(c: Config, elapsed: int)
    requires c.Valid() && elapsed >= c.window
    ensures Refill(c, elapsed) >= c.limit
  {
    var extra := elapsed - c.window;
    assert elapsed * c.limit == c.window * c.limit + extra * c.limit;
    assert extra * c.limit >= 0;
    MultipleDiv(c.limit, c.window);
    DivMonotone(c.window * c.limit, elapsed * c.limit, c.window);
  }

  lemma {:induction false} MultipleDiv(q: int, w: int)
    requires w > 0
    ensures w * q / w == q
  {
    var d := w * q / w;
    assert w * d <= w * q < w * d + w;
    assert w * (d + 1) == w * d + w;
    assert w * (q + 1) == w * q + w;
    Cancel(w, q, d + 1);
    Cancel(w, d, q + 1);
  }

  lemma {:induction false} RefillAdds(c: Config, a: int, b: int)
    requires c.Valid()
    ensures Refill(c, a) + Refill(c, b) <= Refill(c, a + b)
  {
    assert (a + b) * c.limit == a * c.limit + b * c.limit;
    DivSuperadditive(a * c.limit, b * c.limit, c.window);
  }

  lemma {:induction false} WindowRefillsNoMore(c: Config, elapsed: int)
    requires c.Valid() && elapsed <= c.window
    ensures Refill(c, elapsed) <= c.limit
  {
  }

  lemma {:induction false} TokensInRange(c: Config, e0: Option<Entry>, times: seq<int>, ttl: bool, n: nat)
    requires Start(c, e0, times) && n <= |times|
    ensures var s := StateAt(c, e0, times, ttl, n);
            s.Some? ==>
              && 0 <= s.value.tokens <= c.limit
              && s.value.expireAt == s.value.last + TtlMillis(c.window)
              && (n > 0 ==> s.value.last == times[n - 1])
              && (forall i :: n <= i < |times| ==> s.value.last <= times[i])
  {
    if n > 0 {
      TokensInRange(c, e0, times, ttl, n - 1);
      var s := StateAt(c, e0, times, ttl, n - 1);
      RefillNonNegative(c, 0);
      if s.Some? {
        RefillNonNegative(c, times[n - 1] - s.value.last);
      }
    }
  }

  /** Expiry is invisible: with one clock for Redis and its callers, dropping idle keys changes
      no answer and no token count on any trace. */
  lemma {:induction false} ExpiryInvisible(c: Config, e0: Option<Entry>, times: seq<int>, n: nat)
    requires Start(c, e0, times) && n < |times|
    ensures CallAt(c, e0, times, true, n) == CallAt(c, e0, times, false, n)
  {
    if n > 0 {
      ExpiryInvisible(c, e0, times, n - 1);
    }
    assert StateAt(c, e0, times, true, n) == StateAt(c, e0, times, false, n);
    TokensInRange(c, e0, times, true, n);
    var s := StateAt(c, e0, times, true, n);
    if s.Some? && times[n] > s.value.expireAt {
      assert times[n] - s.value.last >= c.window;
      WindowRefillsAll(c, times[n] - s.value.last);
      RefillNonNegative(c, 0);
    }
  }

  /** So a call may be read as if its hash could not have expired. */
  lemma {:induction false} CallSeesState(c: Config, e0: Option<Entry>, times: seq<int>, n: nat)
    requires Start(c, e0, times) && n < |times|
    ensures CallAt(c, e0, times, true, n) == Script(c, StateAt(c, e0, times, true, n), times[n])
  {
    ExpiryInvisible(c, e0, times, n);
    if n > 0 {
      ExpiryInvisible(c, e0, times, n - 1);
    }
  }

  lemma {:induction false} BudgetStep(c: Config, spent: int, e: Entry, earlier: int, now: int)
    requires c.Valid() && spent + e.tokens <= c.limit + Refill(c, e.last - earlier)
    ensures var o := Script(c, Some(e), now);
            spent + (if o.allowed then 1 else 0) + o.entry.tokens <= c.limit + Refill(c, now - earlier)
  {
    RefillAdds(c, e.last - earlier, now - e.last);
  }

  /** Admission plus what is left never outgrows one full bucket plus what time has earned. */
  lemma {:induction false} Budget(c: Config, e0: Option<Entry>, times: seq<int>, i: nat, j: nat)
    requires Start(c, e0, times) && i < j <= |times|
    ensures Admitted(c, e0, times, i, j) + StateAt(c, e0, times, true, j).value.tokens
         <= c.limit + Refill(c, times[j - 1] - times[i])
  {
    CallSeesState(c, e0, times, j - 1);
    if j == i + 1 {
      assert Admitted(c, e0, times, i, i) == 0;
      RefillNonNegative(c, 0);
    } else {
      Budget(c, e0, times, i, j - 1);
      BudgetStep(c, Admitted(c, e0, times, i, j - 1), StateAt(c, e0, times, true, j - 1).value, times[i], times[j - 1]);
    }
  }

  /** Of any stretch of calls i .. j, at most a full bucket plus the tokens earned meanwhile are
      admitted; a stretch no longer than the window admits at most twice the limit. */
  lemma {:induction false} AdmissionBound(c: Config, e0: Option<Entry>, times: seq<int>, i: nat, j: nat)
    requires Start(c, e0, times) && i <= j < |times|
    ensures Admitted(c, e0, times, i, j + 1) <= c.limit + Refill(c, times[j] - times[i])
    ensures times[j] - times[i] <= c.window ==> Admitted(c, e0, times, i, j + 1) <= 2 * c.limit
  {
    Budget(c, e0, times, i, j + 1);
    TokensInRange(c, e0, times, true, j + 1);
    if times[j] - times[i] <= c.window {
      WindowRefillsNoMore(c, times[j] - times[i]);
    }
  }

  /** `limit` calls at instant 0 and `limit` more one window later. */
  ghost function TwoBursts(c: Config): seq<int>
    requires c.Valid()
  {
    seq(2 * c.limit, k => if k < c.limit then 0 else c.window)
  }

  /** One admitted call on a bucket that holds something. */
  lemma {:induction false} BurstStep(c: Config, e: Entry, now: int)
    requires c.Valid() && 0 <= e.tokens <= c.limit
    requires (now == e.last && e.tokens > 0) || (now == e.last + c.window && c.limit > 0)
    ensures var o := Script(c, Some(e), now);
            o.allowed && o.entry.tokens == (if now == e.last then e.tokens else c.limit) - 1
  {
    if now == e.last {
      assert Refill(c, 0) == 0;
    } else {
      WindowRefillsAll(c, c.window);
    }
  }

  /** What the two bursts leave after n calls, all admitted. */
  function BurstTokens(c: Config, n: int): int {
    if n <= c.limit then c.limit - n else 2 * c.limit - n
  }

  lemma {:induction false} FirstCall(c: Config, now: int)
    requires c.Valid()
    ensures Script(c, None, now).allowed == (c.limit > 0)
    ensures Script(c, None, now).entry.tokens == if c.limit > 0 then c.limit - 1 else 0
  {
    assert Refill(c, 0) == 0;
  }

  lemma {:induction false} BurstsStart(c: Config)
    requires c.Valid()
    ensures Start(c, None, TwoBursts(c))
  {
  }

  lemma {:induction false} DoubleBurstPrefix(c: Config, n: nat)
    requires c.Valid() && n <= 2 * c.limit
    ensures Admitted(c, None, TwoBursts(c), 0, n) == n
    ensures n > 0 ==> StateAt(c, None, TwoBursts(c), true, n).value.tokens == BurstTokens(c, n)
  {
    if n > 0 {
      DoubleBurstPrefix(c, n - 1);
      DoubleBurstCall(c, n);
    }
  }

  /** The n-th call of the two bursts is admitted, given what the calls before it left. */
  lemma {:induction false} DoubleBurstCall(c: Config, n: nat)
    requires c.Valid() && 0 < n <= 2 * c.limit
    requires n > 1 ==> StateAt(c, None, TwoBursts(c), true, n - 1).value.tokens == BurstTokens(c, n - 1)
    ensures var o := CallAt(c, None, TwoBursts(c), true, n - 1);
            o.allowed && o.entry.tokens == BurstTokens(c, n)
  {
    var times := TwoBursts(c);
    BurstsStart(c);
    CallSeesState(c, None, times, n - 1);
    if n == 1 {
      FirstCall(c, times[0]);
    } else {
      TokensInRange(c, None, times, true, n - 1);
      BurstStep(c, StateAt(c, None, times, true, n - 1).value, times[n - 1]);
    }
  }

  /** The bound of twice the limit within one window is reached, whatever the configuration. */
  lemma {:induction false} BoundIsTight(c: Config)
    requires c.Valid() && c.limit > 0
    ensures var times := TwoBursts(c);
            && Start(c, None, times)
            && times[|times| - 1] - times[0] == c.window
            && Admitted(c, None, times, 0, |times|) == 2 * c.limit
  {
    BurstsStart(c);
    DoubleBurstPrefix(c, 2 * c.limit);
  }

  // ----- The exact bucket, which keeps fractions of a token -----

  datatype Exact = Exact(tokens: real, allowed: bool)

  ghost function ExactOnHand(c: Config, tokens: real, elapsed: int): real
    requires c.Valid()
  {
    var t := tokens + (elapsed * c.limit) as real / c.window as real;
    if t < c.limit as real then t else c.limit as real
  }

  ghost function ExactStep(onHand: real): Exact {
    if onHand >= 1.0 then Exact(onHand - 1.0, true) else Exact(onHand, false)
  }

  /** The n-th call on a bucket that is refilled without rounding and admits on a whole token. */
  ghost function ExactCallAt(c: Config, e0: Option<Entry>, times: seq<int>, n: nat): Exact
    requires c.Valid() && n < |times|
  {
    if n > 0 then
      ExactStep(ExactOnHand(c, ExactCallAt(c, e0, times, n - 1).tokens, times[n] - times[n - 1]))
    else
      match e0
      case None => ExactStep(c.limit as real)
      case Some(e) => ExactStep(ExactOnHand(c, e.tokens as real, times[0] - e.last))
  }

  ghost function ExactAdmitted(c: Config, e0: Option<Entry>, times: seq<int>, n: nat): nat
    requires c.Valid() && n <= |times|
  {
    if n == 0 then 0
    else ExactAdmitted(c, e0, times, n - 1) + if ExactCallAt(c, e0, times, n - 1).allowed then 1 else 0
  }

  lemma {:induction false} FloorBelowExact(a: int, w: int)
    requires w > 0
    ensures (a / w) as real <= a as real / w as real
    ensures a % w == 0 ==> (a / w) as real == a as real / w as real
  {
  }

  /** What one call on both buckets shows. */
  ghost predicate Dominated(o: Outcome, x: Exact) {
    o.entry.tokens as real <= x.tokens && (o.allowed ==> x.allowed)
  }

  ghost predicate Same(o: Outcome, x: Exact) {
    o.entry.tokens as real == x.tokens && o.allowed == x.allowed
  }

  lemma {:induction false} SpendRefines(onHand: int, x: real, o: Outcome)
    requires 0 <= onHand && onHand as real <= x
    requires o.allowed == (onHand > 0) && o.entry.tokens == if o.allowed then onHand - 1 else onHand
    ensures Dominated(o, ExactStep(x))
    ensures onHand as real == x ==> Same(o, ExactStep(x))
  {
  }

  lemma {:induction false} EarnRefines(c: Config, e: Entry, now: int, x: real)
    requires c.Valid() && e.tokens >= 0 && now >= e.last && e.tokens as real <= x
    ensures OnHand(c, Some(e), now) >= 0
    ensures OnHand(c, Some(e), now) as real <= ExactOnHand(c, x, now - e.last)
    ensures e.tokens as real == x && (now - e.last) * c.limit % c.window == 0
            ==> OnHand(c, Some(e), now) as real == ExactOnHand(c, x, now - e.last)
  {
    RefillNonNegative(c, now - e.last);
    FloorBelowExact((now - e.last) * c.limit, c.window);
  }

  /** One call on both buckets, the exact one holding at least as much. */
  lemma {:induction false} RefinesExactStep(c: Config, e: Entry, now: int, x: real)
    requires c.Valid() && e.tokens >= 0 && now >= e.last && e.tokens as real <= x
    ensures Dominated(Script(c, Some(e), now), ExactStep(ExactOnHand(c, x, now - e.last)))
    ensures e.tokens as real == x && (now - e.last) * c.limit % c.window == 0
            ==> Same(Script(c, Some(e), now), ExactStep(ExactOnHand(c, x, now - e.last)))
  {
    EarnRefines(c, e, now, x);
    SpendRefines(OnHand(c, Some(e), now), ExactOnHand(c, x, now - e.last), Script(c, Some(e), now));
  }

  lemma {:induction false} FirstRefines(c: Config, now: int)
    requires c.Valid()
    ensures Dominated(Script(c, None, now), ExactStep(c.limit as real))
    ensures Same(Script(c, None, now), ExactStep(c.limit as real))
  {
    FirstCall(c, now);
  }

  /** Call by call: the script never holds more than the exact bucket and admits only what the
      exact bucket admits.  When every gap earns whole tokens the two are the same bucket. */
  lemma {:induction false} RefinesExactAt(c: Config, e0: Option<Entry>, times: seq<int>, n: nat)
    requires Start(c, e0, times) && n < |times|
    ensures Dominated(CallAt(c, e0, times, true, n), ExactCallAt(c, e0, times, n))
    ensures WholeTokenGaps(c, e0, times, n) ==> Same(CallAt(c, e0, times, true, n), ExactCallAt(c, e0, times, n))
  {
    CallSeesState(c, e0, times, n);
    TokensInRange(c, e0, times, true, n);
    if n > 0 {
      RefinesExactAt(c, e0, times, n - 1);
      RefinesExactStep(c, StateAt(c, e0, times, true, n).value, times[n], ExactCallAt(c, e0, times, n - 1).tokens);
      if WholeTokenGaps(c, e0, times, n) {
        assert GapTokens(c, times, n) % c.window == 0;
      }
    } else if e0.Some? {
      RefinesExactStep(c, e0.value, times[0], e0.value.tokens as real);
    } else {
      FirstRefines(c, times[0]);
    }
  }

  /** The guard under which flooring loses nothing up to call n. */
  ghost predicate WholeTokenGaps(c: Config, e0: Option<Entry>, times: seq<int>, n: nat)
    requires c.Valid() && n < |times|
  {
    && (e0.Some? ==> (times[0] - e0.value.last) * c.limit % c.window == 0)
    && forall k :: 0 < k <= n ==> GapTokens(c, times, k) % c.window == 0
  }

  ghost function GapTokens(c: Config, times: seq<int>, k: nat): int
    requires 0 < k < |times|
  {
    (times[k] - times[k - 1]) * c.limit
  }

  /** Refinement on counts: at every prefix of every trace the script has admitted no more
      requests than the exact bucket. */
  lemma {:induction false} RefinesExact(c: Config, e0: Option<Entry>, times: seq<int>, n: nat)
    requires Start(c, e0, times) && n <= |times|
    ensures Admitted(c, e0, times, 0, n) <= ExactAdmitted(c, e0, times, n)
  {
    if n > 0 {
      RefinesExact(c, e0, times, n - 1);
      RefinesExactAt(c, e0, times, n - 1);
    }
  }

  // ----- Single quantities -----

  /** The time to live is the window rounded up to whole seconds, and no longer. */
  lemma {:induction false} TtlIsCeiling(window: int)
    ensures TtlMillis(window) % 1000 == 0 && window <= TtlMillis(window) < window + 1000
  {
  }

  /** A gap earns the whole tokens of its share of the window, neither more nor fewer. */
  lemma {:induction false} RefillIsFloor(c: Config, gap: int)
    requires c.Valid()
    ensures Refill(c, gap) * c.window <= gap * c.limit < Refill(c, gap) * c.window + c.window
  {
    var q := gap * c.limit / c.window;
    assert gap * c.limit == c.window * q + gap * c.limit % c.window;
  }

  // ----- Spacing -----

  /** A gap earns at least one token exactly when it lasts ceil(window / limit). */
  lemma {:induction false} RefillPositiveIff(c: Config, gap: int)
    requires c.Valid() && c.limit > 0
    ensures Refill(c, gap) >= 1 <==> gap * c.limit >= c.window
    ensures gap * c.limit >= c.window <==> gap >= (c.window + c.limit - 1) / c.limit
  {
    if gap * c.limit >= c.window {
      DivMonotone(c.window, gap * c.limit, c.window);
    }
    var q := (c.window + c.limit - 1) / c.limit;
    assert c.window <= q * c.limit < c.window + c.limit;
    if gap >= q {
      assert gap * c.limit >= q * c.limit;
    } else {
      assert gap * c.limit <= (q - 1) * c.limit;
    }
  }

  /** A call at least ceil(window / limit) after the previous one on its key is always admitted. */
  lemma {:induction false} SpacedCallAdmitted(c: Config, e0: Option<Entry>, times: seq<int>, n: nat)
    requires Start(c, e0, times) && 0 < n < |times| && c.limit > 0
    requires times[n] - times[n - 1] >= (c.window + c.limit - 1) / c.limit
    ensures CallAt(c, e0, times, true, n).allowed
  {
    CallSeesState(c, e0, times, n);
    TokensInRange(c, e0, times, true, n);
    RefillPositiveIff(c, times[n] - times[n - 1]);
  }

  /** Starvation, exactly: from an empty bucket a run of calls is refused throughout if and only
      if every gap in it is shorter than ceil(window / limit), however long the run lasts. */
  lemma {:induction false} EmptyStaysEmptyIff(c: Config, e0: Option<Entry>, times: seq<int>, m: nat, n: nat)
    requires Start(c, e0, times) && 0 < m <= n <= |times| && c.limit > 0
    requires StateAt(c, e0, times, true, m).value.tokens == 0
    ensures (forall k :: m <= k < n ==> !CallAt(c, e0, times, true, k).allowed)
       <==> (forall k :: m <= k < n ==> GapTokens(c, times, k) < c.window)
  {
    if n > m {
      EmptyStaysEmptyIff(c, e0, times, m, n - 1);
      if forall k :: m <= k < n ==> GapTokens(c, times, k) < c.window {
        StaysEmpty(c, e0, times, m, n);
        forall k | m <= k < n ensures !CallAt(c, e0, times, true, k).allowed {
          StaysEmpty(c, e0, times, m, k + 1);
        }
      } else {
        var k :| m <= k < n && GapTokens(c, times, k) >= c.window;
        RefillPositiveIff(c, times[k] - times[k - 1]);
        SpacedCallAdmitted(c, e0, times, k);
      }
    }
  }

  lemma {:induction false} EmptyStep(c: Config, e: Entry, now: int)
    requires c.Valid() && c.limit > 0 && e.tokens == 0 && now >= e.last
    ensures OnHand(c, Some(e), now) >= 0
    ensures OnHand(c, Some(e), now) > 0 <==> (now - e.last) * c.limit >= c.window
  {
    RefillNonNegative(c, now - e.last);
    RefillPositiveIff(c, now - e.last);
  }

  lemma {:induction false} StaysEmpty(c: Config, e0: Option<Entry>, times: seq<int>, m: nat, n: nat)
    requires Start(c, e0, times) && 0 < m <= n <= |times| && c.limit > 0
    requires StateAt(c, e0, times, true, m).value.tokens == 0
    requires forall k :: m <= k < n ==> GapTokens(c, times, k) < c.window
    ensures StateAt(c, e0, times, true, n).value.tokens == 0
    ensures n > m ==> !CallAt(c, e0, times, true, n - 1).allowed
  {
    if n > m {
      StaysEmpty(c, e0, times, m, n - 1);
      CallSeesState(c, e0, times, n - 1);
      TokensInRange(c, e0, times, true, n - 1);
      assert GapTokens(c, times, n - 1) < c.window;
      EmptyStep(c, StateAt(c, e0, times, true, n - 1).value, times[n - 1]);
    }
  }
}
