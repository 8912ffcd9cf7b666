/** The reward rules engine: validation of a rule, its conditions, and the eight evaluators.
    Percentages and amounts in reais are exact; amounts in cents are integers. */
module Rules {
  import opened Common
  import opened Decimals
  import opened Rounding

  datatype Condition = Condition(op: string, field: string, valueText: string)

  /** The fields validation or evaluation looks at; an absent JSON field is None. */
  datatype RewardConfig = RewardConfig(kind: string, amountBRL: Option<real>, pct: Option<real>, maxPct: Option<real>,
                                       target: Option<int>, pointsPerBRL: Option<real>,
                                       pointsPerConversion: Option<int>, maxMonths: Option<int>)

  datatype Rule = Rule(schemaVersion: int, trigger: string, windowDays: int, conditions: seq<Condition>, reward: RewardConfig)

  /** The split carried by the event, as JSON decoding finds it. */
  datatype SplitChoice = NoChoice | Unparsable | Choice(commissionPct: real, discountPct: real)

  datatype Event = Event(saleAmount: int, leadStatus: string, partner: string, referral: string, program: string,
                         tenant: string, sale: string, splitChoice: SplitChoice)

  datatype Metadata =
    | FixedMeta(amountBRL: real)
    | PctMeta(saleAmount: int, pct: real, cents: int)
    | SplitMeta(saleAmount: int, commissionPct: real, discountPct: real, commissionCents: int, discountCents: int)
    | GoalMeta(target: int)
    | PointsMeta(points: int)
    | RecurringMeta(saleAmount: int, pct: real, maxMonths: int, currentMonth: int)
    | DiscountMeta(discountCents: int)

  datatype Outcome = Outcome(kind: string, amountCents: int, metadata: Metadata, partner: string, referral: string,
                             program: string, tenant: string, sale: string, currency: string, status: string)

  datatype Error = ConditionNotMet | NoEvaluator | SaleRequired | BadSplit | OverLimit

  /** `Panicked` is the dereference of an absent field. */
  datatype Result = Success(outcome: Outcome) | Failure(error: Error) | Panicked

  datatype Evaluator = CommissionFixed | CommissionPct | FlexibleSplit | GoalBased | Points | Cashback | Recurring | DiscountForLead

  const TRIGGERS := {"sale.confirmed", "lead.created", "lead.qualified", "payment.confirmed"}

  const BUILT_IN := map[
    "commission_fixed" := CommissionFixed, "commission_pct" := CommissionPct, "flexible_split" := FlexibleSplit,
    "goal_based" := GoalBased, "points" := Points, "cashback" := Cashback, "recurring_commission" := Recurring,
    "discount_for_lead" := DiscountForLead]

  // ----- Evaluators -----

  function Bare(kind: string, amountCents: int, metadata: Metadata): Outcome {
    Outcome(kind, amountCents, metadata, "", "", "", "", "", "", "")
  }

  function PctCents(event: Event, pct: real): int {
    Round(Share(event.saleAmount, pct))
  }

  function EvalPct(kind: string, rc: RewardConfig, event: Event): Result {
    if event.saleAmount <= 0 then Failure(SaleRequired)
    else if rc.pct.None? then Panicked
    else
      var cents := PctCents(event, rc.pct.value);
      Success(Bare(kind, cents, PctMeta(event.saleAmount, rc.pct.value, cents)))
  }

  function EvalSplit(rc: RewardConfig, event: Event): Result {
    if event.saleAmount <= 0 then Failure(SaleRequired)
    else if event.splitChoice.Unparsable? then Failure(BadSplit)
    else if rc.maxPct.None? then Panicked
    else
      var (c, d) := if event.splitChoice.Choice? then (event.splitChoice.commissionPct, event.splitChoice.discountPct)
                    else (rc.maxPct.value, 0.0);
      if c + d > rc.maxPct.value then Failure(OverLimit)
      else
        var commission, discount := PctCents(event, c), PctCents(event, d);
        Success(Bare("flexible_split", commission, SplitMeta(event.saleAmount, c, d, commission, discount)))
  }

  function EvalRecurring(rc: RewardConfig, event: Event): Result {
    if event.saleAmount <= 0 then Failure(SaleRequired)
    else if rc.pct.None? then Panicked
    else
      var months := if rc.maxMonths.Some? then rc.maxMonths.value else 12;
      Success(Bare("recurring_commission", PctCents(event, rc.pct.value),
                   RecurringMeta(event.saleAmount, rc.pct.value, months, 1)))
  }

  function EvalPoints(rc: RewardConfig, event: Event): Result {
    var points := if rc.pointsPerBRL.Some? && event.saleAmount > 0
                  then Round(event.saleAmount as real / 100.0 * rc.pointsPerBRL.value)
                  else if rc.pointsPerConversion.Some? then rc.pointsPerConversion.value
                  else 0;
    Success(Bare("points", 0, PointsMeta(points)))
  }

  function EvalDiscount(rc: RewardConfig, event: Event): Result {
    var cents := if rc.pct.Some? then PctCents(event, rc.pct.value)
                 else if rc.amountBRL.Some? then Trunc(rc.amountBRL.value * 100.0)
                 else 0;
    Success(Bare("discount_for_lead", 0, DiscountMeta(cents)))
  }

  function Run(evaluator: Evaluator, rc: RewardConfig, event: Event): Result {
    match evaluator
    case CommissionFixed =>
      if rc.amountBRL.None? then Panicked
      else Success(Bare("commission_fixed", Trunc(rc.amountBRL.value * 100.0), FixedMeta(rc.amountBRL.value)))
    case CommissionPct => EvalPct("commission_pct", rc, event)
    case FlexibleSplit => EvalSplit(rc, event)
    case GoalBased => if rc.target.None? then Panicked else Success(Bare("goal_based", 0, GoalMeta(rc.target.value)))
    case Points => EvalPoints(rc, event)
    case Cashback => EvalPct("cashback", rc, event)
    case Recurring => EvalRecurring(rc, event)
    case DiscountForLead => EvalDiscount(rc, event)
  }

  // ----- Conditions -----

  /** A field of the event as the %v verb prints it. */
  function FieldText(field: string, event: Event): string {
    if field == "lead.status" then event.leadStatus
    else if field == "sale.amount" then SignedDecimal(event.saleAmount)
    else "<nil>"
  }

  predicate Holds(cond: Condition, event: Event) {
    if cond.op == "eq" then FieldText(cond.field, event) == cond.valueText
    else if cond.op == "neq" then FieldText(cond.field, event) != cond.valueText
    else true
  }

  predicate AllHold(conditions: seq<Condition>, event: Event) {
    forall i :: 0 <= i < |conditions| ==> Holds(conditions[i], event)
  }

  /** The conditions that are looked at. */
  function Tested(conditions: seq<Condition>): seq<Condition> {
    if conditions == [] then []
    else (if conditions[0].op in {"eq", "neq"} then [conditions[0]] else []) + Tested(conditions[1..])
  }

  lemma {:induction false} OnlyTestedHold(conditions: seq<Condition>, event: Event)
    ensures AllHold(conditions, event) <==> AllHold(Tested(conditions), event)
  {
    if conditions != [] {
      var head, tail := conditions[0], conditions[1..];
      OnlyTestedHold(tail, event);
      assert conditions == [head] + tail;
      assert [] + Tested(tail) == Tested(tail);
      AllHoldOf(head, tail, event);
      AllHoldOf(head, Tested(tail), event);
    }
  }

  lemma {:induction false} AllHoldOf(head: Condition, tail: seq<Condition>, event: Event)
    ensures AllHold([head] + tail, event) <==> Holds(head, event) && AllHold(tail, event)
  {
    var all := [head] + tail;
    if AllHold(all, event) {
      assert Holds(all[0], event);
      forall i | 0 <= i < |tail| ensures Holds(tail[i], event) {
        assert Holds(all[i + 1], event);
      }
    }
  }

  function Complete(o: Outcome, event: Event): Outcome {
    o.(partner := event.partner, referral := event.referral, program := event.program, tenant := event.tenant,
       sale := event.sale, currency := "BRL", status := if o.status == "" then "pending" else o.status)
  }

  /** The outcome of a rule on an event, with a given registry of evaluators. */
  function Evaluate(evaluators: map<string, Evaluator>, rule: Rule, event: Event): Result {
    if !AllHold(rule.conditions, event) then Failure(ConditionNotMet)
    else if rule.reward.kind !in evaluators then Failure(NoEvaluator)
    else
      var r := Run(evaluators[rule.reward.kind], rule.reward, event);
      if r.Success? then Success(Complete(r.outcome, event)) else r
  }

  class Engine {
    var evaluators: map<string, Evaluator>

    constructor ()
      ensures evaluators == BUILT_IN
    {
      evaluators := map[];
      new;
      Register("commission_fixed", CommissionFixed);
      Register("commission_pct", CommissionPct);
      Register("flexible_split", FlexibleSplit);
      Register("goal_based", GoalBased);
      Register("points", Points);
      Register("cashback", Cashback);
      Register("recurring_commission", Recurring);
      Register("discount_for_lead", DiscountForLead);
    }

    method Register(kind: string, evaluator: Evaluator)
      modifies this
      ensures evaluators == old(evaluators)[kind := evaluator]
    {
      evaluators := evaluators[kind := evaluator];
    }

    method EvaluateRule(rule: RuleSchema, event: Event) returns (r: Result)
      ensures r == Evaluate(evaluators, rule.View(), event)
    {
      var unmet := CheckConditions(rule.conditions, event);
      if unmet.Some? {
        return Failure(ConditionNotMet);
      }
      if rule.reward.kind !in evaluators {
        return Failure(NoEvaluator);
      }
      r := Run(evaluators[rule.reward.kind], rule.reward, event);
      if r.Success? {
        var outcome := r.outcome.(partner := event.partner, referral := event.referral, program := event.program,
                                  tenant := event.tenant, sale := event.sale, currency := "BRL");
        if outcome.status == "" {
          outcome := outcome.(status := "pending");
        }
        r := Success(outcome);
      }
    }
  }

  /** The first condition that fails, if any. */
  method CheckConditions(conditions: seq<Condition>, event: Event) returns (unmet: Option<Condition>)
    ensures unmet.None? <==> AllHold(conditions, event)
    ensures unmet.Some? ==> exists i :: 0 <= i < |conditions| && conditions[i] == unmet.value
                                        && !Holds(conditions[i], event) && AllHold(conditions[..i], event)
  {
    for i := 0 to |conditions|
      invariant AllHold(conditions[..i], event)
    {
      if !Holds(conditions[i], event) {
        return Some(conditions[i]);
      }
    }
    assert conditions[..|conditions|] == conditions;
    return None;
  }

  // ----- Validation -----

  datatype Invalid = BadVersion | NoTrigger | BadTrigger | NoKind | BadKind | BadReward

  /** The configuration its kind of reward asks for. */
  predicate RewardOk(rc: RewardConfig) {
    match rc.kind
    case "commission_fixed" => rc.amountBRL.Some? && rc.amountBRL.value > 0.0
    case "commission_pct" => rc.pct.Some? && 0.0 < rc.pct.value <= 100.0
    case "cashback" => rc.pct.Some? && 0.0 < rc.pct.value <= 100.0
    case "flexible_split" => rc.maxPct.Some? && 0.0 < rc.maxPct.value <= 100.0
    case "goal_based" => rc.target.Some? && rc.target.value > 0
    case "points" => rc.pointsPerBRL.Some? || rc.pointsPerConversion.Some?
    case "recurring_commission" => rc.pct.Some? && rc.pct.value > 0.0
    case _ => true
  }

  predicate Valid(rule: Rule) {
    && rule.schemaVersion >= 1
    && rule.trigger in TRIGGERS
    && rule.reward.kind in BUILT_IN
    && RewardOk(rule.reward)
  }

  class RuleSchema {
    const schemaVersion: int
    const trigger: string
    var windowDays: int
    const conditions: seq<Condition>
    const reward: RewardConfig

    constructor (rule: Rule)
      ensures View() == rule
    {
      schemaVersion, trigger, windowDays, conditions, reward :=
        rule.schemaVersion, rule.trigger, rule.windowDays, rule.conditions, rule.reward;
    }

    function View(): Rule
      reads this
    {
      Rule(schemaVersion, trigger, windowDays, conditions, reward)
    }

    /** Accepts exactly the valid rules; the default window is written once version and trigger
        are fine, even when the reward is then refused. */
    method Validate() returns (r: Option<Invalid>)
      modifies this`windowDays
      ensures r.None? <==> Valid(old(View()))
      ensures windowDays == if old(windowDays) <= 0 && schemaVersion >= 1 && trigger in TRIGGERS then 30 else old(windowDays)
    {
      if schemaVersion < 1 {
        return Some(BadVersion);
      }
      if trigger == "" {
        return Some(NoTrigger);
      }
      if trigger !in TRIGGERS {
        return Some(BadTrigger);
      }
      if windowDays <= 0 {
        windowDays := 30;
      }
      return ValidateReward(reward);
    }
  }

  function ValidateReward(rc: RewardConfig): (r: Option<Invalid>)
    ensures r.None? <==> rc.kind in BUILT_IN && RewardOk(rc)
  {
    if rc.kind == "" then Some(NoKind)
    else if rc.kind !in BUILT_IN then Some(BadKind)
    else if rc.kind == "commission_fixed" then
      if rc.amountBRL.None? || rc.amountBRL.value <= 0.0 then Some(BadReward) else None
    else if rc.kind == "commission_pct" || rc.kind == "cashback" then
      if rc.pct.None? || rc.pct.value <= 0.0 || rc.pct.value > 100.0 then Some(BadReward) else None
    else if rc.kind == "flexible_split" then
      if rc.maxPct.None? || rc.maxPct.value <= 0.0 || rc.maxPct.value > 100.0 then Some(BadReward) else None
    else if rc.kind == "goal_based" then
      if rc.target.None? || rc.target.value <= 0 then Some(BadReward) else None
    else if rc.kind == "points" then
      if rc.pointsPerBRL.None? && rc.pointsPerConversion.None? then Some(BadReward) else None
    else if rc.kind == "recurring_commission" then
      if rc.pct.None? || rc.pct.value <= 0.0 then Some(BadReward) else None
    else None
  }

  // ----- Operators without a test -----

  /** Every condition but eq and neq could be struck from the rule: gt, lt, in and between, which the
      schema lists, always pass. */
  lemma {:induction false} UntestedOperatorsIgnored(rule: Rule, event: Event)
    ensures Evaluate(BUILT_IN, rule, event) == Evaluate(BUILT_IN, rule.(conditions := Tested(rule.conditions)), event)
  {
    OnlyTestedHold(rule.conditions, event);
  }

  /** A valid rule for sales over 1000 cents pays on a sale of 100. */
  lemma {:induction false} SmallSalePasses(event: Event)
    requires event.saleAmount == 100
    ensures var reward := RewardConfig("commission_pct", None, Some(10.0), None, None, None, None, None);
            var rule := Rule(1, "sale.confirmed", 30, [Condition("gt", "sale.amount", "1000")], reward);
            && Valid(rule)
            && Evaluate(BUILT_IN, rule, event).Success? && Evaluate(BUILT_IN, rule, event).outcome.amountCents == 10
  {
  }

  // ----- Validation is sufficient -----

  predicate NeedsSale(kind: string) {
    kind in {"commission_pct", "cashback", "flexible_split", "recurring_commission"}
  }

  /** For every valid rule and every event the engine finds an evaluator and reads no absent field.
      Each failure has exactly one cause, and without a cause there is an outcome. */
  lemma {:induction false} ValidationSuffices(rule: Rule, event: Event)
    requires Valid(rule)
    ensures var r, kind, met := Evaluate(BUILT_IN, rule, event), rule.reward.kind, AllHold(rule.conditions, event);
            && r != Panicked && r != Failure(NoEvaluator)
            && (r == Failure(ConditionNotMet) <==> !met)
            && (r == Failure(SaleRequired) <==> met && NeedsSale(kind) && event.saleAmount <= 0)
            && (r == Failure(BadSplit) <==> met && kind == "flexible_split" && event.saleAmount > 0
                                            && event.splitChoice.Unparsable?)
            && (r == Failure(OverLimit) <==> met && kind == "flexible_split" && event.saleAmount > 0
                                             && event.splitChoice.Choice?
                                             && event.splitChoice.commissionPct + event.splitChoice.discountPct
                                                > rule.reward.maxPct.value)
  {
    var kind := rule.reward.kind;
    if kind == "commission_fixed" {
    } else if kind == "commission_pct" {
    } else if kind == "flexible_split" {
    } else if kind == "goal_based" {
    } else if kind == "points" {
    } else if kind == "cashback" {
    } else if kind == "recurring_commission" {
    } else {
      assert kind == "discount_for_lead";
    }
  }

  /** Every reward the engine produces starts out pending, for the ids of the event. */
  lemma {:induction false} RewardsStartPending(rule: Rule, event: Event)
    requires Evaluate(BUILT_IN, rule, event).Success?
    ensures var o := Evaluate(BUILT_IN, rule, event).outcome;
            && o.status == "pending" && o.currency == "BRL" && o.kind == rule.reward.kind
            && o.partner == event.partner && o.referral == event.referral && o.program == event.program
            && o.tenant == event.tenant && o.sale == event.sale
  {
    var e := BUILT_IN[rule.reward.kind];
    match e
    case CommissionFixed =>
    case CommissionPct =>
    case FlexibleSplit =>
    case GoalBased =>
    case Points =>
    case Cashback =>
    case Recurring =>
    case DiscountForLead =>
  }

  // ----- What is paid -----

  predicate PaysPct(kind: string) {
    kind == "commission_pct" || kind == "cashback"
  }

  lemma {:induction false} PctAmount(rule: Rule, event: Event)
    requires Valid(rule) && Evaluate(BUILT_IN, rule, event).Success?
    requires PaysPct(rule.reward.kind) || rule.reward.kind == "recurring_commission"
    ensures event.saleAmount > 0
    ensures Evaluate(BUILT_IN, rule, event).outcome.amountCents == Round(Share(event.saleAmount, rule.reward.pct.value))
  {
  }

  /** An accepted percentage rule pays between nothing and the whole sale. */
  lemma {:induction false} PctPaysWithinSale(rule: Rule, event: Event)
    requires Valid(rule) && PaysPct(rule.reward.kind) && Evaluate(BUILT_IN, rule, event).Success?
    ensures 0 <= Evaluate(BUILT_IN, rule, event).outcome.amountCents <= event.saleAmount
  {
    PctAmount(rule, event);
    var sale, pct := event.saleAmount, rule.reward.pct.value;
    ShareMonotone(0, sale, 0.0, pct);
    RoundMonotone(0.0, Share(sale, pct));
    ShareMonotone(sale, sale, pct, 100.0);
    RoundMonotone(Share(sale, pct), sale as real);
    RoundInt(sale);
  }

  /** A larger sale or a larger percentage never pays less. */
  lemma {:induction false} PctMonotone(rule: Rule, rule': Rule, event: Event, event': Event)
    requires Valid(rule) && Valid(rule') && PaysPct(rule.reward.kind) && PaysPct(rule'.reward.kind)
    requires Evaluate(BUILT_IN, rule, event).Success? && Evaluate(BUILT_IN, rule', event').Success?
    requires event.saleAmount <= event'.saleAmount && rule.reward.pct.value <= rule'.reward.pct.value
    ensures Evaluate(BUILT_IN, rule, event).outcome.amountCents <= Evaluate(BUILT_IN, rule', event').outcome.amountCents
  {
    PctAmount(rule, event);
    PctAmount(rule', event');
    ShareMonotone(event.saleAmount, event'.saleAmount, rule.reward.pct.value, rule'.reward.pct.value);
    RoundMonotone(Share(event.saleAmount, rule.reward.pct.value), Share(event'.saleAmount, rule'.reward.pct.value));
  }

  /** A fixed commission is cut to whole cents, whatever the sale. */
  lemma {:induction false} FixedPaysWholeCents(rule: Rule, event: Event)
    requires Valid(rule) && rule.reward.kind == "commission_fixed" && AllHold(rule.conditions, event)
    ensures Evaluate(BUILT_IN, rule, event).Success?
    ensures var cents := Evaluate(BUILT_IN, rule, event).outcome.amountCents;
            0 <= cents && cents as real <= rule.reward.amountBRL.value * 100.0 < (cents + 1) as real
  {
  }

  /** With a rate and a sale, points follow the reais spent to within half a point; otherwise they
      are the flat number per conversion, or none without one. */
  lemma {:induction false} PointsEarned(rule: Rule, event: Event)
    requires Valid(rule) && rule.reward.kind == "points" && AllHold(rule.conditions, event)
    ensures Evaluate(BUILT_IN, rule, event).Success?
    ensures var o, rc := Evaluate(BUILT_IN, rule, event).outcome, rule.reward;
            && o.metadata.PointsMeta?
            && (rc.pointsPerBRL.Some? && event.saleAmount > 0 ==>
                  Abs(o.metadata.points as real * 100.0 - event.saleAmount as real * rc.pointsPerBRL.value) <= 50.0)
            && (rc.pointsPerBRL.None? || event.saleAmount <= 0 ==>
                  o.metadata.points == if rc.pointsPerConversion.Some? then rc.pointsPerConversion.value else 0)
  {
    if rule.reward.pointsPerBRL.Some? {
      var sale, rate := event.saleAmount as real, rule.reward.pointsPerBRL.value;
      RoundError(sale / 100.0 * rate);
      assert sale / 100.0 * rate * 100.0 == sale * rate;
    }
  }

  /** Only the kinds that pay the partner in money carry an amount. */
  lemma {:induction false} MoneyOnlyInFive(rule: Rule, event: Event)
    requires Evaluate(BUILT_IN, rule, event).Success? && Evaluate(BUILT_IN, rule, event).outcome.amountCents != 0
    ensures NeedsSale(rule.reward.kind) || rule.reward.kind == "commission_fixed"
  {
    var e := BUILT_IN[rule.reward.kind];
    match e
    case CommissionFixed =>
    case CommissionPct =>
    case FlexibleSplit =>
    case GoalBased =>
    case Points =>
    case Cashback =>
    case Recurring =>
    case DiscountForLead =>
  }

  function WithSale(event: Event, sale: int): Event {
    event.(saleAmount := sale)
  }

  function RecurringPays(rule: Rule, event: Event, sale: int): int {
    var r := Evaluate(BUILT_IN, rule, WithSale(event, sale));
    if r.Success? then r.outcome.amountCents else 0
  }

  /** A condition lets the rule apply to one sale amount only. */
  predicate PinsSale(conditions: seq<Condition>) {
    exists i :: 0 <= i < |conditions| && conditions[i].op == "eq" && conditions[i].field == "sale.amount"
  }

  /** From here on no sale amount prints as a value of the conditions. */
  function AboveTexts(conditions: seq<Condition>): nat {
    if conditions == [] then 1
    else
      var rest, text := AboveTexts(conditions[1..]), conditions[0].valueText;
      if (forall i :: 0 <= i < |text| ==> IsDigit(text[i])) && Numeral(text) >= rest then Numeral(text) + 1 else rest
  }

  lemma {:induction false} NoTextAbove(conditions: seq<Condition>, sale: nat, i: nat)
    requires sale >= AboveTexts(conditions) && i < |conditions|
    ensures SignedDecimal(sale) != conditions[i].valueText
  {
    NumeralOfDecimal(sale);
    if i > 0 {
      NoTextAbove(conditions[1..], sale, i - 1);
    }
  }

  /** Unless a condition pins the sale, an event that meets all of them meets them with every large
      enough sale. */
  lemma {:induction false} LargeSalesHold(conditions: seq<Condition>, event: Event, sale: nat)
    requires AllHold(conditions, event) && !PinsSale(conditions) && sale >= AboveTexts(conditions)
    ensures AllHold(conditions, WithSale(event, sale))
  {
    forall i | 0 <= i < |conditions| ensures Holds(conditions[i], WithSale(event, sale)) {
      assert Holds(conditions[i], event);
      NoTextAbove(conditions, sale, i);
    }
  }

  lemma {:induction false} PinnedSale(conditions: seq<Condition>, event: Event, sale: int)
    requires AllHold(conditions, event) && PinsSale(conditions) && AllHold(conditions, WithSale(event, sale))
    ensures sale == event.saleAmount
  {
    var i :| 0 <= i < |conditions| && conditions[i].op == "eq" && conditions[i].field == "sale.amount";
    assert Holds(conditions[i], event) && Holds(conditions[i], WithSale(event, sale));
    SignedDecimalInjective(sale, event.saleAmount);
  }

  lemma {:induction false} RecurringOn(rule: Rule, event: Event, sale: int)
    requires Valid(rule) && rule.reward.kind == "recurring_commission" && sale > 0
    ensures RecurringPays(rule, event, sale) ==
            if AllHold(rule.conditions, WithSale(event, sale)) then Round(Share(sale, rule.reward.pct.value)) else 0
  {
  }

  lemma {:induction false} RecurringOverpays(rule: Rule, event: Event) returns (sale: int)
    requires Valid(rule) && rule.reward.kind == "recurring_commission" && AllHold(rule.conditions, event)
    requires !PinsSale(rule.conditions) && rule.reward.pct.value > 100.0
    ensures sale > 0 && RecurringPays(rule, event, sale) > sale
  {
    var pct, above := rule.reward.pct.value, AboveTexts(rule.conditions);
    var shown := SaleThatShows(100.0, pct);
    sale := shown + above;
    LargeSalesHold(rule.conditions, event, sale);
    RecurringOn(rule, event, sale);
    SharesAdd(shown, above, pct);
    ShareMonotone(above, above, 100.0, pct);
    assert Share(shown, 100.0) == shown as real && Share(above, 100.0) == above as real;
    RoundMonotone((sale + 1) as real, Share(sale, pct));
    RoundInt(sale + 1);
  }

  lemma {:induction false} RecurringWithin(rule: Rule, event: Event, sale: int)
    requires Valid(rule) && rule.reward.kind == "recurring_commission" && rule.reward.pct.value <= 100.0 && sale > 0
    ensures RecurringPays(rule, event, sale) <= sale
  {
    RecurringOn(rule, event, sale);
    ShareMonotone(sale, sale, rule.reward.pct.value, 100.0);
    assert Share(sale, 100.0) == sale as real;
    RoundMonotone(Share(sale, rule.reward.pct.value), sale as real);
    RoundInt(sale);
  }

  /** The sale to look at when the conditions pin it. */
  predicate PinnedWithin(sale: int, pct: real) {
    sale <= 0 || Share(sale, pct) < sale as real + 0.5
  }

  lemma {:induction false} RecurringPinned(rule: Rule, event: Event)
    requires Valid(rule) && rule.reward.kind == "recurring_commission" && AllHold(rule.conditions, event)
    requires PinsSale(rule.conditions)
    ensures (forall sale: int :: sale > 0 ==> RecurringPays(rule, event, sale) <= sale)
       <==> PinnedWithin(event.saleAmount, rule.reward.pct.value)
  {
    var a, pct := event.saleAmount, rule.reward.pct.value;
    assert WithSale(event, a) == event;
    forall sale: int | sale > 0
      ensures RecurringPays(rule, event, sale) == if sale == a then Round(Share(a, pct)) else 0
    {
      RecurringOn(rule, event, sale);
      if AllHold(rule.conditions, WithSale(event, sale)) {
        PinnedSale(rule.conditions, event, sale);
      }
    }
    if a > 0 {
      RoundAtMostIff(Share(a, pct), a);
      assert RecurringPays(rule, event, a) == Round(Share(a, pct));
    }
  }

  /** Validation puts no upper limit on a recurring percentage.  A rule that some event meets stays
      within the sale on every sale if and only if the percentage is at most 100, or, when a condition
      pins the sale amount, its share of that amount rounds to no more. */
  lemma {:induction false} RecurringWithinSaleIff(rule: Rule, event: Event)
    requires Valid(rule) && rule.reward.kind == "recurring_commission" && AllHold(rule.conditions, event)
    ensures (forall sale: int :: sale > 0 ==> RecurringPays(rule, event, sale) <= sale)
       <==> if PinsSale(rule.conditions) then PinnedWithin(event.saleAmount, rule.reward.pct.value)
            else rule.reward.pct.value <= 100.0
  {
    if PinsSale(rule.conditions) {
      RecurringPinned(rule, event);
    } else if rule.reward.pct.value <= 100.0 {
      forall sale: int | sale > 0 ensures RecurringPays(rule, event, sale) <= sale {
        RecurringWithin(rule, event, sale);
      }
    } else {
      var sale := RecurringOverpays(rule, event);
    }
  }

  // ----- The split -----

  lemma {:induction false} SplitOutcome(rule: Rule, event: Event)
    requires Valid(rule) && rule.reward.kind == "flexible_split" && Evaluate(BUILT_IN, rule, event).Success?
    ensures var o, m := Evaluate(BUILT_IN, rule, event).outcome, rule.reward.maxPct.value;
            && o.metadata.SplitMeta?
            && o.metadata.commissionPct + o.metadata.discountPct <= m
            && o.amountCents == o.metadata.commissionCents == Round(Share(event.saleAmount, o.metadata.commissionPct))
            && o.metadata.discountCents == Round(Share(event.saleAmount, o.metadata.discountPct))
            && event.saleAmount > 0
  {
  }

  /** With no negative percentage, commission and discount together stay within one cent of the
      rounded maximum, and reach it to within one cent when the split uses all of it. */
  lemma {:induction false} SplitRounding(rule: Rule, event: Event)
    requires Valid(rule) && rule.reward.kind == "flexible_split" && Evaluate(BUILT_IN, rule, event).Success?
    requires event.splitChoice.Choice? ==> event.splitChoice.commissionPct >= 0.0 && event.splitChoice.discountPct >= 0.0
    ensures var meta, most := Evaluate(BUILT_IN, rule, event).outcome.metadata, Round(Share(event.saleAmount, rule.reward.maxPct.value));
            && meta.SplitMeta?
            && meta.commissionCents + meta.discountCents <= most + 1
            && (meta.commissionPct + meta.discountPct == rule.reward.maxPct.value
                ==> most - 1 <= meta.commissionCents + meta.discountCents)
  {
    SplitOutcome(rule, event);
    var meta, m, sale := Evaluate(BUILT_IN, rule, event).outcome.metadata, rule.reward.maxPct.value, event.saleAmount;
    var c, d := meta.commissionPct, meta.discountPct;
    ShareMonotone(sale, sale, 0.0, c);
    ShareMonotone(sale, sale, 0.0, d);
    ShareAdds(sale, c, d);
    ShareMonotone(sale, sale, c + d, m);
    RoundParts(Share(sale, c), Share(sale, d), Share(sale, m));
  }

  /** Both cents of SplitRounding are reached, on a sale of one cent: halves of the whole give one
      too many, and two parts of 40 out of 80 one too few. */
  lemma {:induction false} SplitRoundingReached(rc: RewardConfig, event: Event)
    requires event.saleAmount == 1 && event.splitChoice.Choice?
    requires (rc.maxPct, event.splitChoice) == (Some(100.0), Choice(50.0, 50.0))
             || (rc.maxPct, event.splitChoice) == (Some(80.0), Choice(40.0, 40.0))
    ensures Run(FlexibleSplit, rc, event).Success?
    ensures var meta, most := Run(FlexibleSplit, rc, event).outcome.metadata, Round(Share(1, rc.maxPct.value));
            && meta.SplitMeta?
            && meta.commissionCents + meta.discountCents == if rc.maxPct == Some(100.0) then most + 1 else most - 1
  {
  }

  function NoConfig(kind: string): RewardConfig {
    RewardConfig(kind, None, None, None, None, None, None, None)
  }

  /** A rule with no condition. */
  function PlainRule(reward: RewardConfig): Rule {
    Rule(1, "sale.confirmed", 30, [], reward)
  }

  /** A valid split rule of at most 10 per cent accepts 50 per cent commission with a discount of
      -40, and pays half the sale. */
  lemma {:induction false} NegativeDiscountOverpays(event: Event)
    requires event.saleAmount == 100 && event.splitChoice == Choice(50.0, -40.0)
    ensures var rule := PlainRule(NoConfig("flexible_split").(maxPct := Some(10.0)));
            && Valid(rule) && Round(Share(100, 10.0)) == 10
            && Evaluate(BUILT_IN, rule, event).Success? && Evaluate(BUILT_IN, rule, event).outcome.amountCents == 50
  {
  }

  /** A valid recurring rule of 150 per cent pays more than the sale. */
  lemma {:induction false} RecurringPaysOverSale(event: Event)
    requires event.saleAmount == 100
    ensures var rule := PlainRule(NoConfig("recurring_commission").(pct := Some(150.0)));
            && Valid(rule)
            && Evaluate(BUILT_IN, rule, event).Success? && Evaluate(BUILT_IN, rule, event).outcome.amountCents == 150
  {
  }

  /** The commission an accepted split pays on a sale. */
  function SplitPays(rc: RewardConfig, event: Event, sale: int): int {
    var r := Run(FlexibleSplit, rc, WithSale(event, sale));
    if r.Success? then r.outcome.amountCents else 0
  }

  /** The limit is checked on the sum alone.  An accepted choice keeps the partner between nothing
      and the rounded maximum on every sale exactly when its commission percentage is between 0 and
      the maximum; a negative discount is what lets it be more. */
  lemma {:induction false} SplitWithinMaxIff(rc: RewardConfig, event: Event)
    requires rc.kind == "flexible_split" && RewardOk(rc) && event.splitChoice.Choice?
    requires event.splitChoice.commissionPct + event.splitChoice.discountPct <= rc.maxPct.value
    ensures (forall sale: int :: sale > 0 ==> 0 <= SplitPays(rc, event, sale) <= Round(Share(sale, rc.maxPct.value)))
       <==> 0.0 <= event.splitChoice.commissionPct <= rc.maxPct.value
    ensures event.splitChoice.commissionPct > rc.maxPct.value ==> event.splitChoice.discountPct < 0.0
  {
    var c, m := event.splitChoice.commissionPct, rc.maxPct.value;
    forall sale: int | sale > 0
      ensures SplitPays(rc, event, sale) == Round(Share(sale, c)) && Round(Share(sale, 0.0)) == 0
    {
      RoundInt(0);
    }
    PaysAtMostIff(c, m);
    PaysAtMostIff(0.0, c);
    if forall sale: int :: sale > 0 ==> 0 <= SplitPays(rc, event, sale) <= Round(Share(sale, m)) {
      forall sale: int | sale > 0
        ensures Round(Share(sale, 0.0)) <= Round(Share(sale, c)) <= Round(Share(sale, m))
      {
        assert 0 <= SplitPays(rc, event, sale) <= Round(Share(sale, m));
      }
    }
  }
}
