/** What the engine promises for each kind of rule, told without the evaluators: which rules are
    accepted, when a condition holds, when a field is missing, and what an outcome says. */
module RuleOutcomes {
  import opened Common
  import opened Decimals
  import opened Rounding
  import opened Rules

  // ----- Validation -----

  predicate Above(x: Option<real>, low: real) {
    x.Some? && x.value > low
  }

  predicate PctUpTo100(x: Option<real>) {
    Above(x, 0.0) && x.value <= 100.0
  }

  /** The accepted rules, kind by kind. */
  lemma {:induction false} AcceptedIff(rule: Rule)
    ensures var rc, kind := rule.reward, rule.reward.kind;
            Valid(rule) <==>
            && rule.schemaVersion >= 1
            && (rule.trigger == "sale.confirmed" || rule.trigger == "lead.created"
                || rule.trigger == "lead.qualified" || rule.trigger == "payment.confirmed")
            && (|| (kind == "commission_fixed" && Above(rc.amountBRL, 0.0))
                || (kind == "commission_pct" && PctUpTo100(rc.pct))
                || (kind == "cashback" && PctUpTo100(rc.pct))
                || (kind == "flexible_split" && PctUpTo100(rc.maxPct))
                || (kind == "goal_based" && rc.target.Some? && rc.target.value >= 1)
                || (kind == "points" && (rc.pointsPerBRL.Some? || rc.pointsPerConversion.Some?))
                || (kind == "recurring_commission" && Above(rc.pct, 0.0))
                || kind == "discount_for_lead")
  {
  }

  // ----- Conditions -----

  /** An eq condition compares the lead's status or the decimal sale amount; any other field reads as
      the text of nil.  A neq condition is its negation. */
  lemma {:induction false} ConditionMeans(text: string, n: int, event: Event, other: string)
    requires other != "lead.status" && other != "sale.amount"
    ensures Holds(Condition("eq", "lead.status", text), event) <==> event.leadStatus == text
    ensures Holds(Condition("eq", "sale.amount", SignedDecimal(n)), event) <==> event.saleAmount == n
    ensures Holds(Condition("eq", other, text), event) <==> text == "<nil>"
    ensures forall field :: Holds(Condition("neq", field, text), event) <==> !Holds(Condition("eq", field, text), event)
  {
    if SignedDecimal(event.saleAmount) == SignedDecimal(n) {
      SignedDecimalInjective(event.saleAmount, n);
    }
  }

  // ----- Missing fields -----

  /** Any rule at all, validated or not, reads an absent field in exactly these cases. */
  lemma {:induction false} PanicsIff(rule: Rule, event: Event)
    ensures var rc, kind := rule.reward, rule.reward.kind;
            Evaluate(BUILT_IN, rule, event) == Panicked <==>
            && AllHold(rule.conditions, event)
            && (|| (kind == "commission_fixed" && rc.amountBRL.None?)
                || (kind == "goal_based" && rc.target.None?)
                || (kind in {"commission_pct", "cashback", "recurring_commission"} && event.saleAmount > 0 && rc.pct.None?)
                || (kind == "flexible_split" && event.saleAmount > 0 && !event.splitChoice.Unparsable? && rc.maxPct.None?))
  {
    if rule.reward.kind in BUILT_IN {
      match BUILT_IN[rule.reward.kind]
      case CommissionFixed =>
      case CommissionPct =>
      case FlexibleSplit =>
      case GoalBased =>
      case Points =>
      case Cashback =>
      case Recurring =>
      case DiscountForLead =>
    }
  }

  // ----- Outcomes -----

  /** The whole number nearest to x, a half going away from zero. */
  predicate Nearest(x: real, n: int) {
    if x >= 0.0 then n as real - 0.5 <= x < n as real + 0.5 else n as real - 0.5 < x <= n as real + 0.5
  }

  /** The cents a percentage of a sale comes to. */
  predicate CentsOf(sale: int, pct: real, cents: int) {
    Nearest(sale as real * pct / 100.0, cents)
  }

  /** The whole number next to x on the side of zero. */
  predicate Cut(x: real, n: int) {
    if x >= 0.0 then n as real <= x < n as real + 1.0 else n as real - 1.0 < x <= n as real
  }

  /** The commission and the discount percentage: the event's choice, or all for the partner. */
  function Percentages(rc: RewardConfig, event: Event): (real, real)
    requires rc.maxPct.Some?
  {
    match event.splitChoice
    case Choice(commission, discount) => (commission, discount)
    case _ => (rc.maxPct.value, 0.0)
  }

  predicate SplitPromised(rc: RewardConfig, event: Event, o: Outcome)
    requires rc.maxPct.Some?
  {
    var (p, q) := Percentages(rc, event);
    && o.metadata.SplitMeta? && o.metadata.saleAmount == event.saleAmount
    && o.metadata.commissionPct == p && o.metadata.discountPct == q && p + q <= rc.maxPct.value
    && CentsOf(event.saleAmount, p, o.amountCents) && o.metadata.commissionCents == o.amountCents
    && CentsOf(event.saleAmount, q, o.metadata.discountCents)
  }

  predicate PctPromised(rc: RewardConfig, event: Event, o: Outcome)
    requires rc.pct.Some?
  {
    && CentsOf(event.saleAmount, rc.pct.value, o.amountCents)
    && o.metadata == PctMeta(event.saleAmount, rc.pct.value, o.amountCents)
  }

  predicate RecurringPromised(rc: RewardConfig, event: Event, o: Outcome)
    requires rc.pct.Some?
  {
    && CentsOf(event.saleAmount, rc.pct.value, o.amountCents)
    && o.metadata.RecurringMeta? && o.metadata.saleAmount == event.saleAmount && o.metadata.pct == rc.pct.value
    && o.metadata.currentMonth == 1
    && o.metadata.maxMonths == if rc.maxMonths.Some? then rc.maxMonths.value else 12
  }

  predicate PointsPromised(rc: RewardConfig, event: Event, o: Outcome) {
    && o.amountCents == 0 && o.metadata.PointsMeta?
    && if rc.pointsPerBRL.Some? && event.saleAmount > 0
       then Nearest(event.saleAmount as real / 100.0 * rc.pointsPerBRL.value, o.metadata.points)
       else o.metadata.points == if rc.pointsPerConversion.Some? then rc.pointsPerConversion.value else 0
  }

  predicate DiscountPromised(rc: RewardConfig, event: Event, o: Outcome) {
    && o.amountCents == 0 && o.metadata.DiscountMeta?
    && if rc.pct.Some? then CentsOf(event.saleAmount, rc.pct.value, o.metadata.discountCents)
       else if rc.amountBRL.Some? then Cut(rc.amountBRL.value * 100.0, o.metadata.discountCents)
       else o.metadata.discountCents == 0
  }

  /** Who gets what, by the kind of the rule. */
  predicate Promised(rc: RewardConfig, event: Event, o: Outcome) {
    match rc.kind
    case "commission_fixed" =>
      rc.amountBRL.Some? && Cut(rc.amountBRL.value * 100.0, o.amountCents) && o.metadata == FixedMeta(rc.amountBRL.value)
    case "commission_pct" => rc.pct.Some? && PctPromised(rc, event, o)
    case "cashback" => rc.pct.Some? && PctPromised(rc, event, o)
    case "flexible_split" => rc.maxPct.Some? && SplitPromised(rc, event, o)
    case "recurring_commission" => rc.pct.Some? && RecurringPromised(rc, event, o)
    case "goal_based" => rc.target.Some? && o.amountCents == 0 && o.metadata == GoalMeta(rc.target.value)
    case "points" => PointsPromised(rc, event, o)
    case "discount_for_lead" => DiscountPromised(rc, event, o)
    case _ => false
  }

  lemma {:induction false} RoundIsNearest(x: real)
    ensures Nearest(x, Round(x)) && Cut(x, Trunc(x))
  {
  }

  lemma {:induction false} ShareIs(sale: int, pct: real)
    ensures CentsOf(sale, pct, Round(Share(sale, pct)))
  {
    RoundIsNearest(sale as real * pct / 100.0);
  }

  lemma {:induction false} SplitAsPromised(rule: Rule, event: Event)
    requires rule.reward.kind == "flexible_split" && Evaluate(BUILT_IN, rule, event).Success?
    ensures rule.reward.maxPct.Some? && SplitPromised(rule.reward, event, Evaluate(BUILT_IN, rule, event).outcome)
  {
    var (p, q) := Percentages(rule.reward, event);
    ShareIs(event.saleAmount, p);
    ShareIs(event.saleAmount, q);
  }

  /** Every outcome is what its kind of rule promises, for the event's own ids. */
  lemma {:induction false} OutcomeAsPromised(rule: Rule, event: Event)
    requires Evaluate(BUILT_IN, rule, event).Success?
    ensures Promised(rule.reward, event, Evaluate(BUILT_IN, rule, event).outcome)
    ensures var o := Evaluate(BUILT_IN, rule, event).outcome;
            && o.kind == rule.reward.kind && o.status == "pending" && o.currency == "BRL"
            && o.partner == event.partner && o.referral == event.referral && o.program == event.program
            && o.tenant == event.tenant && o.sale == event.sale
  {
    var rc := rule.reward;
    RewardsStartPending(rule, event);
    match BUILT_IN[rc.kind]
    case CommissionFixed => RoundIsNearest(rc.amountBRL.value * 100.0);
    case CommissionPct => ShareIs(event.saleAmount, rc.pct.value);
    case FlexibleSplit => SplitAsPromised(rule, event);
    case GoalBased =>
    case Points => RoundIsNearest(event.saleAmount as real / 100.0 * if rc.pointsPerBRL.Some? then rc.pointsPerBRL.value else 0.0);
    case Cashback => ShareIs(event.saleAmount, rc.pct.value);
    case Recurring => ShareIs(event.saleAmount, rc.pct.value);
    case DiscountForLead =>
      ShareIs(event.saleAmount, if rc.pct.Some? then rc.pct.value else 0.0);
      RoundIsNearest(if rc.amountBRL.Some? then rc.amountBRL.value * 100.0 else 0.0);
  }
}
