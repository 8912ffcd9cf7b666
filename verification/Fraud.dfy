/** Fraud scoring of a new lead from what the database remembers. Times are in nanoseconds. */
module Fraud {
  import opened Common

  datatype Partner = Partner(tenant: Id, phoneHash: Option<string>, emailHash: Option<string>)

  datatype Referral = Referral(partner: Id, tenant: Id, createdAt: int)

  datatype Lead = Lead(referral: Option<Id>, phoneHash: string)

  datatype Click = Click(partner: Id, tenant: Id, slug: string, fingerprint: string, occurredAt: int)

  datatype History = History(partners: map<Id, Partner>, referrals: map<Id, Referral>,
                             leads: map<Id, Lead>, clicks: map<Id, Click>)

  datatype Input = Input(partner: Id, tenant: Id, phoneHash: string, emailHash: string, now: int)

  datatype Name = SelfReferral | Velocity | PhoneDedup | ClickVelocity | IpUaDup | ImprobableHours

  datatype Signal = Signal(name: Name, points: nat)

  datatype Action = OK | Review | Block

  datatype Result = Result(score: nat, action: Action, signals: seq<Signal>)

  const MINUTE := 60_000_000_000
  const HOUR := 60 * MINUTE
  const DAY := 24 * HOUR

  // ----- what the queries select -----

  function RecentReferrals(h: History, partner: Id, tenant: Id, since: int): set<Id> {
    set r | r in h.referrals
            && h.referrals[r].partner == partner && h.referrals[r].tenant == tenant && h.referrals[r].createdAt >= since
  }

  function RecentClicks(h: History, partner: Id, tenant: Id, since: int): set<Id> {
    set c | c in h.clicks
            && h.clicks[c].partner == partner && h.clicks[c].tenant == tenant && h.clicks[c].occurredAt >= since
  }

  function From(h: History, clicks: set<Id>, fingerprint: string): set<Id> {
    set c | c in clicks && c in h.clicks && h.clicks[c].fingerprint == fingerprint
  }

  function Fingerprints(h: History, clicks: set<Id>): set<string> {
    set c | c in clicks && c in h.clicks :: h.clicks[c].fingerprint
  }

  function Repeated(h: History, clicks: set<Id>): set<string> {
    set f | f in Fingerprints(h, clicks) && |From(h, clicks, f)| > 30
  }

  /** Leads with this phone that came through another partner's recent referral. */
  function StolenLeads(h: History, partner: Id, tenant: Id, phoneHash: string, since: int): set<Id> {
    set l | l in h.leads && h.leads[l].phoneHash == phoneHash && h.leads[l].referral.Some?
            && h.leads[l].referral.value in h.referrals
            && var r := h.referrals[h.leads[l].referral.value];
               r.tenant == tenant && r.partner != partner && r.createdAt >= since
  }

  // ----- the six signals; a failed query gives no points -----

  function CheckSelfReferral(h: History, input: Input, failed: bool): (points: nat)
    ensures points > 0 ==> points == 50 && !failed
  {
    if failed || input.partner !in h.partners || h.partners[input.partner].tenant != input.tenant then 0
    else
      var p := h.partners[input.partner];
      if p.phoneHash == Some(input.phoneHash) then 50
      else if input.emailHash != "" && p.emailHash == Some(input.emailHash) then 50
      else 0
  }

  function CheckVelocity(h: History, input: Input, failed: bool): nat {
    if failed then 0
    else if |RecentReferrals(h, input.partner, input.tenant, input.now - HOUR)| > 10 then 20
    else 0
  }

  function CheckPhoneDedup(h: History, input: Input, failed: bool): nat {
    if input.phoneHash == "" || failed then 0
    else if StolenLeads(h, input.partner, input.tenant, input.phoneHash, input.now - DAY) == {} then 0
    else 30
  }

  function CheckClickVelocity(h: History, input: Input, failed: bool): nat {
    if failed then 0
    else if |RecentClicks(h, input.partner, input.tenant, input.now - MINUTE)| > 50 then 25
    else 0
  }

  function CheckIpUaDup(h: History, input: Input, failed: bool): nat {
    if failed then 0
    else if |Repeated(h, RecentClicks(h, input.partner, input.tenant, input.now - HOUR))| > 0 then 15
    else 0
  }

  /** The hour of day three hours west of UTC. */
  function HourBrt(now: int): (hour: nat)
    ensures hour < 24
  {
    (now - 3 * HOUR) / HOUR % 24
  }

  function CheckImprobableHours(now: int): nat {
    if 2 <= HourBrt(now) <= 4 then 10 else 0
  }

  function PointsOf(n: Name, h: History, input: Input, fail: set<Name>): nat {
    match n
    case SelfReferral => CheckSelfReferral(h, input, n in fail)
    case Velocity => CheckVelocity(h, input, n in fail)
    case PhoneDedup => CheckPhoneDedup(h, input, n in fail)
    case ClickVelocity => CheckClickVelocity(h, input, n in fail)
    case IpUaDup => CheckIpUaDup(h, input, n in fail)
    case ImprobableHours => CheckImprobableHours(input.now)
  }

  // ----- score and action -----

  function SumPoints(signals: seq<Signal>): nat {
    if signals == [] then 0 else SumPoints(signals[..|signals| - 1]) + signals[|signals| - 1].points
  }

  /** Every signal counted once. */
  function Score(h: History, input: Input, fail: set<Name>): nat {
    PointsOf(SelfReferral, h, input, fail) + PointsOf(Velocity, h, input, fail) + PointsOf(PhoneDedup, h, input, fail)
    + PointsOf(ClickVelocity, h, input, fail) + PointsOf(IpUaDup, h, input, fail) + PointsOf(ImprobableHours, h, input, fail)
  }

  function ActionFor(score: nat): Action {
    if score >= 61 then Block else if score >= 31 then Review else OK
  }

  function AttributionScoreFor(action: Action): real {
    match action
    case Review => 0.3
    case Block => 0.0
    case OK => 1.0
  }

  method AppendSignal(signals: seq<Signal>, n: Name, points: nat) returns (r: seq<Signal>)
    ensures SumPoints(r) == SumPoints(signals) + points
    ensures forall s :: s in r <==> s in signals || (s == Signal(n, points) && points > 0)
  {
    r := signals;
    if points > 0 {
      r := signals + [Signal(n, points)];
      assert r[..|r| - 1] == signals;
    }
  }

  /** The result lists exactly the signals that gave points, and scores each of them once. */
  method Check(h: History, input: Input, fail: set<Name>) returns (r: Result)
    ensures forall s :: s in r.signals <==> s.points > 0 && s.points == PointsOf(s.name, h, input, fail)
    ensures r.score == Score(h, input, fail) == SumPoints(r.signals)
    ensures r.action == ActionFor(r.score)
  {
    var self := CheckSelfReferral(h, input, SelfReferral in fail);
    var velocity := CheckVelocity(h, input, Velocity in fail);
    var dedup := CheckPhoneDedup(h, input, PhoneDedup in fail);
    var click := CheckClickVelocity(h, input, ClickVelocity in fail);
    var ipua := CheckIpUaDup(h, input, IpUaDup in fail);
    var hours := CheckImprobableHours(input.now);
    r := Decide(self, velocity, dedup, click, ipua, hours);
    PickPoints(h, input, fail, self, velocity, dedup, click, ipua, hours);
  }

  lemma {:induction false} PickPoints(h: History, input: Input, fail: set<Name>,
                                      self: nat, velocity: nat, dedup: nat, click: nat, ipua: nat, hours: nat)
    requires self == PointsOf(SelfReferral, h, input, fail) && velocity == PointsOf(Velocity, h, input, fail)
    requires dedup == PointsOf(PhoneDedup, h, input, fail) && click == PointsOf(ClickVelocity, h, input, fail)
    requires ipua == PointsOf(IpUaDup, h, input, fail) && hours == PointsOf(ImprobableHours, h, input, fail)
    ensures forall n: Name :: PointsOf(n, h, input, fail) == Pick(n, self, velocity, dedup, click, ipua, hours)
  {
  }

  function Pick(n: Name, self: nat, velocity: nat, dedup: nat, click: nat, ipua: nat, hours: nat): nat {
    match n
    case SelfReferral => self
    case Velocity => velocity
    case PhoneDedup => dedup
    case ClickVelocity => click
    case IpUaDup => ipua
    case ImprobableHours => hours
  }

  /** Check from the points of the six signals on. */
  method Decide(self: nat, velocity: nat, dedup: nat, click: nat, ipua: nat, hours: nat) returns (r: Result)
    ensures forall s :: s in r.signals <==> s.points > 0 && s.points == Pick(s.name, self, velocity, dedup, click, ipua, hours)
    ensures r.score == self + velocity + dedup + click + ipua + hours == SumPoints(r.signals)
    ensures r.action == ActionFor(r.score)
  {
    var signals := [];
    signals := AppendSignal(signals, SelfReferral, self);
    signals := AppendSignal(signals, Velocity, velocity);
    signals := AppendSignal(signals, PhoneDedup, dedup);
    signals := AppendSignal(signals, ClickVelocity, click);
    signals := AppendSignal(signals, IpUaDup, ipua);
    signals := AppendSignal(signals, ImprobableHours, hours);
    var score := Sum(signals);
    var action := OK;
    if score >= 61 {
      action := Block;
    } else if score >= 31 {
      action := Review;
    }
    r := Result(score, action, signals);
  }

  method Sum(signals: seq<Signal>) returns (score: nat)
    ensures score == SumPoints(signals)
  {
    score := 0;
    for i := 0 to |signals|
      invariant score == SumPoints(signals[..i])
    {
      assert signals[..i + 1][..i] == signals[..i];
      score := score + signals[i].points;
    }
    assert signals[..|signals|] == signals;
  }

  // ----- monotonicity -----

  /** h' has every row of h, and maybe more referrals, leads and clicks. */
  predicate Extends(h: History, h': History) {
    && h.partners == h'.partners
    && (forall r :: r in h.referrals ==> r in h'.referrals && h'.referrals[r] == h.referrals[r])
    && (forall l :: l in h.leads ==> l in h'.leads && h'.leads[l] == h.leads[l])
    && (forall c :: c in h.clicks ==> c in h'.clicks && h'.clicks[c] == h.clicks[c])
  }

  lemma {:induction false} SubsetSize<T>(a: set<T>, b: set<T>)
    requires a <= b
    ensures |a| <= |b|
  {
    assert b == a + (b - a);
  }

  lemma {:induction false} ReferralsGrow(h: History, h': History, partner: Id, tenant: Id, since: int, since': int)
    requires Extends(h, h') && since' <= since
    ensures |RecentReferrals(h, partner, tenant, since)| <= |RecentReferrals(h', partner, tenant, since')|
  {
    var rs, rs' := RecentReferrals(h, partner, tenant, since), RecentReferrals(h', partner, tenant, since');
    forall r | r in rs ensures r in rs' {
      assert h'.referrals[r] == h.referrals[r];
    }
    SubsetSize(rs, rs');
  }

  lemma {:induction false} ClicksGrow(h: History, h': History, partner: Id, tenant: Id, since: int, since': int)
    requires Extends(h, h') && since' <= since
    ensures RecentClicks(h, partner, tenant, since) <= RecentClicks(h', partner, tenant, since')
    ensures |RecentClicks(h, partner, tenant, since)| <= |RecentClicks(h', partner, tenant, since')|
  {
    var cs, cs' := RecentClicks(h, partner, tenant, since), RecentClicks(h', partner, tenant, since');
    forall c | c in cs ensures c in cs' {
      assert h'.clicks[c] == h.clicks[c];
    }
    SubsetSize(cs, cs');
  }

  lemma {:induction false} RepeatedGrow(h: History, h': History, cs: set<Id>, cs': set<Id>)
    requires Extends(h, h') && cs <= cs' && forall c :: c in cs ==> c in h.clicks
    ensures Repeated(h, cs) <= Repeated(h', cs')
  {
    forall f | f in Repeated(h, cs) ensures f in Repeated(h', cs') {
      forall c | c in From(h, cs, f) ensures c in From(h', cs', f) {
        assert h'.clicks[c] == h.clicks[c];
      }
      SubsetSize(From(h, cs, f), From(h', cs', f));
      var c :| c in cs && c in h.clicks && h.clicks[c].fingerprint == f;
      assert c in cs' && c in h'.clicks && h'.clicks[c].fingerprint == f;
    }
  }

  lemma {:induction false} DupGrows(h: History, h': History, partner: Id, tenant: Id, since: int, since': int)
    requires Extends(h, h') && since' <= since
    ensures |Repeated(h, RecentClicks(h, partner, tenant, since))| <= |Repeated(h', RecentClicks(h', partner, tenant, since'))|
  {
    var cs, cs' := RecentClicks(h, partner, tenant, since), RecentClicks(h', partner, tenant, since');
    ClicksGrow(h, h', partner, tenant, since, since');
    RepeatedGrow(h, h', cs, cs');
    SubsetSize(Repeated(h, cs), Repeated(h', cs'));
  }

  lemma {:induction false} StolenGrow(h: History, h': History, partner: Id, tenant: Id, phone: string, since: int, since': int)
    requires Extends(h, h') && since' <= since
    ensures StolenLeads(h, partner, tenant, phone, since) <= StolenLeads(h', partner, tenant, phone, since')
  {
  }

  /** Each signal can only gain points from more rows, fewer failures, or (the hour aside) an earlier clock. */
  lemma {:induction false} PointsGrow(n: Name, h: History, h': History, input: Input, now': int, fail: set<Name>, fail': set<Name>)
    requires Extends(h, h') && fail' <= fail && now' <= input.now
    requires n == ImprobableHours ==> now' == input.now
    ensures PointsOf(n, h, input, fail) <= PointsOf(n, h', input.(now := now'), fail')
  {
    match n
    case SelfReferral =>
    case Velocity => ReferralsGrow(h, h', input.partner, input.tenant, input.now - HOUR, now' - HOUR);
    case PhoneDedup => StolenGrow(h, h', input.partner, input.tenant, input.phoneHash, input.now - DAY, now' - DAY);
    case ClickVelocity => ClicksGrow(h, h', input.partner, input.tenant, input.now - MINUTE, now' - MINUTE);
    case IpUaDup => DupGrows(h, h', input.partner, input.tenant, input.now - HOUR, now' - HOUR);
    case ImprobableHours =>
  }

  function Severity(a: Action): nat {
    match a
    case OK => 0
    case Review => 1
    case Block => 2
  }

  lemma {:induction false} ActionGrows(score: nat, score': nat)
    requires score <= score'
    ensures Severity(ActionFor(score)) <= Severity(ActionFor(score'))
    ensures AttributionScoreFor(ActionFor(score)) >= AttributionScoreFor(ActionFor(score'))
  {
  }

  /** Adding referrals, leads or clicks, or having fewer queries fail, never lowers score or action. */
  lemma {:induction false} ScoreMonotone(h: History, h': History, input: Input, fail: set<Name>, fail': set<Name>)
    requires Extends(h, h') && fail' <= fail
    ensures Score(h, input, fail) <= Score(h', input, fail')
    ensures Severity(ActionFor(Score(h, input, fail))) <= Severity(ActionFor(Score(h', input, fail')))
    ensures AttributionScoreFor(ActionFor(Score(h, input, fail))) >= AttributionScoreFor(ActionFor(Score(h', input, fail')))
  {
    assert input.(now := input.now) == input;
    forall n: Name ensures PointsOf(n, h, input, fail) <= PointsOf(n, h', input, fail') {
      PointsGrow(n, h, h', input, input.now, fail, fail');
    }
    ActionGrows(Score(h, input, fail), Score(h', input, fail'));
  }

  /** Waiting, with nothing new in the database, never makes any signal but the hour of day fire. */
  lemma {:induction false} WaitingNeverAdds(n: Name, h: History, input: Input, later: int, fail: set<Name>)
    requires n != ImprobableHours && input.now <= later
    ensures PointsOf(n, h, input.(now := later), fail) <= PointsOf(n, h, input, fail)
  {
    assert input.(now := later).(now := input.now) == input;
    PointsGrow(n, h, h, input.(now := later), input.now, fail, fail);
  }

  lemma Member<T>(s: set<T>) returns (x: T)
    requires s != {}
    ensures x in s
  {
    x :| x in s;
  }

  // ----- what makes each signal fire, on single rows -----

  /** A row of the partner in the tenant whose phone hash is the lead's, or whose email hash is the
      lead's and not empty; a failed query finds no row. */
  lemma {:induction false} SelfReferralIff(h: History, input: Input, failed: bool)
    ensures CheckSelfReferral(h, input, failed) == 50 <==>
            && !failed && input.partner in h.partners && h.partners[input.partner].tenant == input.tenant
            && (h.partners[input.partner].phoneHash == Some(input.phoneHash)
                || (input.emailHash != "" && h.partners[input.partner].emailHash == Some(input.emailHash)))
    ensures CheckSelfReferral(h, input, failed) in {0, 50}
  {
  }

  /** A failed query gives no points; only the hour of day needs none. */
  lemma {:induction false} FailureIsSilent(n: Name, h: History, input: Input, fail: set<Name>)
    requires n in fail && n != ImprobableHours
    ensures PointsOf(n, h, input, fail) == 0
  {
  }

  lemma {:induction false} SomeOfSize(s: set<Id>, n: nat)
    ensures |s| >= n <==> exists r: set<Id> :: |r| == n && r <= s
  {
    if |s| >= n {
      var r := Shrink(s, n);
      assert |r| == n && r <= s;
    } else {
      forall r: set<Id> | r <= s ensures |r| != n {
        SubsetSize(r, s);
      }
    }
  }

  lemma {:induction false} Shrink(s: set<Id>, n: nat) returns (r: set<Id>)
    requires |s| >= n
    ensures |r| == n && r <= s
    decreases |s|
  {
    r := s;
    if |s| > n {
      var x := Member(s);
      r := Shrink(s - {x}, n);
    }
  }

  predicate OwnReferral(h: History, input: Input, r: Id, age: int) {
    && r in h.referrals && h.referrals[r].partner == input.partner && h.referrals[r].tenant == input.tenant
    && input.now - h.referrals[r].createdAt <= age
  }

  predicate OwnClick(h: History, input: Input, c: Id, age: int) {
    && c in h.clicks && h.clicks[c].partner == input.partner && h.clicks[c].tenant == input.tenant
    && input.now - h.clicks[c].occurredAt <= age
  }

  /** Eleven referrals of the partner within the last 3600 seconds. */
  lemma {:induction false} VelocityIff(h: History, input: Input)
    ensures CheckVelocity(h, input, false) == 20 <==>
            exists rs: set<Id> :: |rs| == 11 && forall r :: r in rs ==> OwnReferral(h, input, r, 3_600_000_000_000)
    ensures CheckVelocity(h, input, false) in {0, 20}
  {
    var recent := RecentReferrals(h, input.partner, input.tenant, input.now - HOUR);
    SomeOfSize(recent, 11);
    forall r ensures r in recent <==> OwnReferral(h, input, r, 3_600_000_000_000) {
    }
    if rs: set<Id> :| |rs| == 11 && forall r :: r in rs ==> OwnReferral(h, input, r, 3_600_000_000_000) {
      assert rs <= recent;
    }
    if rs: set<Id> :| |rs| == 11 && rs <= recent {
      assert forall r :: r in rs ==> OwnReferral(h, input, r, 3_600_000_000_000);
    }
  }

  /** Fifty-one clicks of the partner, on any of its links, within the last 60 seconds. */
  lemma {:induction false} ClickVelocityIff(h: History, input: Input)
    ensures CheckClickVelocity(h, input, false) == 25 <==>
            exists cs: set<Id> :: |cs| == 51 && forall c :: c in cs ==> OwnClick(h, input, c, 60_000_000_000)
    ensures CheckClickVelocity(h, input, false) in {0, 25}
  {
    var recent := RecentClicks(h, input.partner, input.tenant, input.now - MINUTE);
    SomeOfSize(recent, 51);
    forall c ensures c in recent <==> OwnClick(h, input, c, 60_000_000_000) {
    }
    if cs: set<Id> :| |cs| == 51 && forall c :: c in cs ==> OwnClick(h, input, c, 60_000_000_000) {
      assert cs <= recent;
    }
    if cs: set<Id> :| |cs| == 51 && cs <= recent {
      assert forall c :: c in cs ==> OwnClick(h, input, c, 60_000_000_000);
    }
  }

  // ----- clicks per link, as the click signal is described -----

  /** The clicks among a set that came over one link. */
  function OverLink(h: History, clicks: set<Id>, slug: string): set<Id> {
    set c | c in clicks && c in h.clicks && h.clicks[c].slug == slug
  }

  function LinkClicks(h: History, input: Input, slug: string): set<Id> {
    OverLink(h, RecentClicks(h, input.partner, input.tenant, input.now - MINUTE), slug)
  }

  /** The description: over 50 clicks within the last minute on a single link of the partner. */
  ghost predicate LinkIsHot(h: History, input: Input) {
    exists slug :: |LinkClicks(h, input, slug)| > 50
  }

  /** The partner's own clicks came over these links. */
  ghost predicate OnLinks(h: History, input: Input, links: set<string>) {
    forall c :: c in h.clicks && h.clicks[c].partner == input.partner && h.clicks[c].tenant == input.tenant ==>
                  h.clicks[c].slug in links
  }

  /** What the description calls for always fires: the code only fires more often. */
  lemma {:induction false} HotLinkFires(h: History, input: Input)
    requires LinkIsHot(h, input)
    ensures CheckClickVelocity(h, input, false) == 25
  {
    var recent := RecentClicks(h, input.partner, input.tenant, input.now - MINUTE);
    var slug :| |LinkClicks(h, input, slug)| > 50;
    SubsetSize(LinkClicks(h, input, slug), recent);
  }

  /** Clicks of one instant, those in `low` over link a and the others over link b. */
  function TwoLinks(input: Input, a: string, b: string, low: set<Id>, all: set<Id>): History {
    History(map[], map[], map[],
            map c | c in all :: Click(input.partner, input.tenant, if c in low then a else b, "f", input.now))
  }

  /** With 26 clicks over one link and 25 over another the code fires, although neither link has
      over 26. */
  lemma {:induction false} TwoLinksDisagree(input: Input, a: string, b: string, low: set<Id>, all: set<Id>)
    requires a != b && low <= all && |low| == 26 && |all| == 51
    ensures OnLinks(TwoLinks(input, a, b, low, all), input, {a, b})
    ensures CheckClickVelocity(TwoLinks(input, a, b, low, all), input, false) == 25
    ensures !LinkIsHot(TwoLinks(input, a, b, low, all), input)
  {
    var h := TwoLinks(input, a, b, low, all);
    assert RecentClicks(h, input.partner, input.tenant, input.now - MINUTE) == all;
    forall slug ensures |LinkClicks(h, input, slug)| <= 26 {
      assert all == low + (all - low);
      if slug == b {
        SubsetSize(LinkClicks(h, input, slug), all - low);
      } else {
        SubsetSize(LinkClicks(h, input, slug), low);
      }
    }
  }

  lemma {:induction false} SomeIds(n: nat) returns (ids: set<Id>)
    ensures |ids| == n && forall id :: id in ids ==> id.number < n
  {
    ids := {};
    for i := 0 to n
      invariant |ids| == i && forall id :: id in ids ==> id.number < i
    {
      ids := ids + {Id(i)};
    }
  }

  /** Code and description agree on every click history of a partner over a set of links if and only
      if that set has at most one link, whatever other partners' clicks there are. */
  lemma {:induction false} ClickRuleAgreesIff(links: set<string>, input: Input)
    ensures (forall h: History :: OnLinks(h, input, links) ==> (CheckClickVelocity(h, input, false) == 25 <==> LinkIsHot(h, input)))
       <==> |links| <= 1
  {
    if |links| <= 1 {
      forall h: History | OnLinks(h, input, links) ensures CheckClickVelocity(h, input, false) == 25 <==> LinkIsHot(h, input) {
        OneLinkAgrees(h, links, input);
      }
    } else {
      var a := Member(links);
      assert links - {a} == {} ==> links == {a};
      var b := Member(links - {a});
      var all := SomeIds(51);
      var low := Shrink(all, 26);
      TwoLinksDisagree(input, a, b, low, all);
      assert OnLinks(TwoLinks(input, a, b, low, all), input, links);
    }
  }

  lemma {:induction false} OneLinkAgrees(h: History, links: set<string>, input: Input)
    requires OnLinks(h, input, links) && |links| <= 1
    ensures CheckClickVelocity(h, input, false) == 25 <==> LinkIsHot(h, input)
  {
    var recent := RecentClicks(h, input.partner, input.tenant, input.now - MINUTE);
    if LinkIsHot(h, input) {
      HotLinkFires(h, input);
    } else if recent != {} {
      var first := Member(recent);
      var slug := h.clicks[first].slug;
      forall c | c in recent ensures h.clicks[c].slug == slug {
        OnlyMember(links, slug, h.clicks[c].slug);
      }
      assert LinkClicks(h, input, slug) == recent;
    }
  }

  lemma {:induction false} OnlyMember<T>(s: set<T>, x: T, y: T)
    requires |s| <= 1 && x in s && y in s
    ensures x == y
  {
    if x != y {
      SubsetSize({x, y}, s);
    }
  }

  predicate SharedClick(h: History, input: Input, c: Id, fingerprint: string) {
    OwnClick(h, input, c, 3_600_000_000_000) && h.clicks[c].fingerprint == fingerprint
  }

  ghost predicate ThirtyOne(h: History, input: Input, cs: set<Id>, fingerprint: string) {
    |cs| == 31 && forall c :: c in cs ==> SharedClick(h, input, c, fingerprint)
  }

  /** Thirty-one clicks of the partner with one fingerprint within the last 3600 seconds. */
  lemma {:induction false} IpUaDupIff(h: History, input: Input)
    ensures CheckIpUaDup(h, input, false) == 15 <==>
            exists f, cs :: ThirtyOne(h, input, cs, f)
    ensures CheckIpUaDup(h, input, false) in {0, 15}
  {
    var recent := RecentClicks(h, input.partner, input.tenant, input.now - HOUR);
    var repeated := Repeated(h, recent);
    if repeated != {} {
      var f := Member(repeated);
      SomeOfSize(From(h, recent, f), 31);
      var cs: set<Id> :| |cs| == 31 && cs <= From(h, recent, f);
      assert ThirtyOne(h, input, cs, f);
    }
    if f, cs :| ThirtyOne(h, input, cs, f) {
      assert cs <= From(h, recent, f);
      SubsetSize(cs, From(h, recent, f));
      var c := Member(cs);
      assert c in recent && h.clicks[c].fingerprint == f;
      assert f in repeated;
    }
  }

  predicate OthersLead(h: History, input: Input, l: Id, age: int) {
    && l in h.leads && h.leads[l].phoneHash == input.phoneHash
    && h.leads[l].referral.Some? && h.leads[l].referral.value in h.referrals
    && var r := h.referrals[h.leads[l].referral.value];
       r.tenant == input.tenant && r.partner != input.partner && input.now - r.createdAt <= age
  }

  /** A lead with the same known phone from another partner's referral of the last 24 hours. */
  lemma {:induction false} PhoneDedupIff(h: History, input: Input)
    ensures CheckPhoneDedup(h, input, false) == 30 <==>
            input.phoneHash != "" && exists l :: OthersLead(h, input, l, 86_400_000_000_000)
    ensures CheckPhoneDedup(h, input, false) in {0, 30}
  {
    var stolen := StolenLeads(h, input.partner, input.tenant, input.phoneHash, input.now - DAY);
    forall l ensures l in stolen <==> OthersLead(h, input, l, 86_400_000_000_000) {
    }
    if stolen != {} {
      var l := Member(stolen);
      assert OthersLead(h, input, l, 86_400_000_000_000);
    }
  }

  /** Two, three or four in Brasilia is five, six or seven in UTC. */
  lemma {:induction false} ImprobableHoursIff(now: int)
    ensures CheckImprobableHours(now) == 10 <==> 5 <= now / 3_600_000_000_000 % 24 <= 7
    ensures CheckImprobableHours(now) in {0, 10}
  {
    HoursBack(now, 3);
  }

  lemma {:induction false} HoursBack(now: int, n: nat)
    ensures (now - n * HOUR) / HOUR == now / HOUR - n
  {
  }

  // ----- which signals block -----

  predicate Fires(n: Name, h: History, input: Input, fail: set<Name>) {
    PointsOf(n, h, input, fail) > 0
  }

  /** Blocked exactly when self-referral fires with a signal other than the hour of day, or when
      enough of the other five fire together: never fewer than three of them. */
  lemma {:induction false} BlockIff(h: History, input: Input, fail: set<Name>)
    ensures var f := (n: Name) => Fires(n, h, input, fail);
            ActionFor(Score(h, input, fail)) == Block <==>
            (f(SelfReferral) && (f(Velocity) || f(PhoneDedup) || f(ClickVelocity) || f(IpUaDup)))
            || (f(PhoneDedup) && f(ClickVelocity) && (f(Velocity) || f(IpUaDup) || f(ImprobableHours)))
            || (f(Velocity) && f(IpUaDup) && (f(PhoneDedup) || (f(ClickVelocity) && f(ImprobableHours))))
  {
  }

  /** What the score decides: blocked from 61, reviewed from 31, with the attribution score each gets. */
  lemma {:induction false} ScoreDecides(score: nat)
    ensures ActionFor(score) == Block <==> score >= 61
    ensures ActionFor(score) == Review <==> 31 <= score <= 60
    ensures AttributionScoreFor(ActionFor(score)) == if score >= 61 then 0.0 else if score >= 31 then 0.3 else 1.0
  {
  }

  /** A signal on its own is reviewed if it is self-referral and passes otherwise. */
  lemma {:induction false} AloneDecides(n: Name, h: History, input: Input, fail: set<Name>)
    requires forall m: Name :: Fires(m, h, input, fail) <==> m == n
    ensures ActionFor(Score(h, input, fail)) == if n == SelfReferral then Review else OK
  {
    assert Fires(SelfReferral, h, input, fail) <==> n == SelfReferral;
    assert Fires(Velocity, h, input, fail) <==> n == Velocity;
    assert Fires(PhoneDedup, h, input, fail) <==> n == PhoneDedup;
    assert Fires(ClickVelocity, h, input, fail) <==> n == ClickVelocity;
    assert Fires(IpUaDup, h, input, fail) <==> n == IpUaDup;
    assert Fires(ImprobableHours, h, input, fail) <==> n == ImprobableHours;
  }

  /** No signal blocks alone, and without self-referral no two do. */
  lemma {:induction false} BlockNeedsMore(h: History, input: Input, fail: set<Name>, a: Name, b: Name)
    requires forall n: Name :: Fires(n, h, input, fail) ==> n == a || n == b
    requires a == b || (a != SelfReferral && b != SelfReferral)
    ensures ActionFor(Score(h, input, fail)) != Block
  {
    BlockIff(h, input, fail);
  }

  // ----- clicks against fingerprints -----

  lemma AnyFingerprint(h: History, clicks: set<Id>, prints: set<string>) returns (f: string)
    requires clicks != {} && forall c :: c in clicks ==> c in h.clicks && h.clicks[c].fingerprint in prints
    ensures f in prints
  {
    var c := Member(clicks);
    f := h.clicks[c].fingerprint;
  }

  lemma {:induction false} ClicksByFingerprint(h: History, clicks: set<Id>, prints: set<string>)
    requires forall c :: c in clicks ==> c in h.clicks && h.clicks[c].fingerprint in prints
    requires forall f :: f in prints ==> |From(h, clicks, f)| <= 30
    ensures |clicks| <= 30 * |prints|
    decreases |prints|
  {
    if clicks != {} {
      var f := AnyFingerprint(h, clicks, prints);
      var own := From(h, clicks, f);
      var rest := clicks - own;
      forall g | g in prints - {f} ensures |From(h, rest, g)| <= 30 {
        SubsetSize(From(h, rest, g), From(h, clicks, g));
      }
      ClicksByFingerprint(h, rest, prints - {f});
      assert clicks == own + rest;
    }
  }

  /** A partner can stay clear of the duplicate-fingerprint signal only by spreading the hour's clicks:
      at most 30 for each fingerprint seen. */
  lemma {:induction false} SilenceSpreadsClicks(h: History, input: Input, fail: set<Name>)
    requires IpUaDup !in fail && !Fires(IpUaDup, h, input, fail)
    ensures var clicks := RecentClicks(h, input.partner, input.tenant, input.now - HOUR);
            |clicks| <= 30 * |Fingerprints(h, clicks)|
  {
    var clicks := RecentClicks(h, input.partner, input.tenant, input.now - HOUR);
    forall f | f in Fingerprints(h, clicks) ensures |From(h, clicks, f)| <= 30 {
      assert f !in Repeated(h, clicks);
    }
    ClicksByFingerprint(h, clicks, Fingerprints(h, clicks));
  }
}
