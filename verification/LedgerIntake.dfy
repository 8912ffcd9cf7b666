/** How rewards enter the ledger: the attribution worker evaluates a rule and inserts the outcome. */
module LedgerIntake {
  import opened Common
  import opened FiniteSums
  import opened Ledger
  import opened LedgerRuns
  import opened LedgerTotals
  import Rounding
  import Rules

  /** The check on the status column. */
  function StatusOf(text: string): Option<RewardStatus> {
    match text
    case "pending" => Some(RewardStatus.Pending)
    case "approved" => Some(Approved)
    case "rejected" => Some(Rejected)
    case "cancelled" => Some(RewardStatus.Cancelled)
    case "paid" => Some(RewardStatus.Paid)
    case _ => None
  }

  /** The row the worker inserts; `parse` is uuid.Parse, which gives the nil id on an error. */
  function RewardOf(o: Rules.Outcome, parse: string -> Id): Option<Reward> {
    var status := StatusOf(o.status);
    if status.None? then None
    else Some(Reward(parse(o.tenant), parse(o.partner), parse(o.program), o.amountCents, status.value, None))
  }

  /** A rule that passed validation produced this row. */
  ghost predicate Produces(rule: Rules.Rule, event: Rules.Event, parse: string -> Id, reward: Reward) {
    var r := Rules.Evaluate(Rules.BUILT_IN, rule, event);
    Rules.Valid(rule) && r.Success? && RewardOf(r.outcome, parse) == Some(reward)
  }

  /** Whatever the engine produces, the worker's insert is a step of the ledger: the row passes the
      status check, it is pending, and it belongs to the event's partner and tenant. */
  lemma {:induction false} OutcomeEntersLedger(rule: Rules.Rule, event: Rules.Event, parse: string -> Id, s: Db, id: Id)
    requires Rules.Evaluate(Rules.BUILT_IN, rule, event).Success? && id !in s.rewards
    ensures var row := RewardOf(Rules.Evaluate(Rules.BUILT_IN, rule, event).outcome, parse);
            && row.Some? && OwnerOf(row.value) == Key(parse(event.partner), parse(event.tenant))
            && Next(s, Insert(id, row.value), s.(rewards := s.rewards[id := row.value]))
  {
    Rules.RewardsStartPending(rule, event);
  }

  /** The one way to a negative amount: a split whose commission rounds below zero. */
  predicate NegativeSplit(rule: Rules.Rule, event: Rules.Event) {
    && rule.reward.kind == "flexible_split" && event.splitChoice.Choice?
    && Rounding.Share(event.saleAmount, event.splitChoice.commissionPct) <= -0.5
  }

  /** A valid rule's outcome is negative if and only if it is such a split. */
  lemma {:induction false} NegativeAmountIff(rule: Rules.Rule, event: Rules.Event)
    requires Rules.Valid(rule) && Rules.Evaluate(Rules.BUILT_IN, rule, event).Success?
    ensures Rules.Evaluate(Rules.BUILT_IN, rule, event).outcome.amountCents < 0 <==> NegativeSplit(rule, event)
  {
    var o, kind := Rules.Evaluate(Rules.BUILT_IN, rule, event).outcome, rule.reward.kind;
    if kind == "flexible_split" {
      Rules.SplitOutcome(rule, event);
      if !event.splitChoice.Choice? {
        Rounding.ShareMonotone(event.saleAmount, event.saleAmount, 0.0, o.metadata.commissionPct);
      }
    } else if o.amountCents != 0 {
      Rules.MoneyOnlyInFive(rule, event);
      if kind == "commission_fixed" {
        Rules.FixedPaysWholeCents(rule, event);
      } else {
        Rules.PctAmount(rule, event);
        Rounding.ShareMonotone(event.saleAmount, event.saleAmount, 0.0, rule.reward.pct.value);
      }
    }
  }

  /** The inserted rows of a run come from the engine, and from no split that is negative. */
  ghost predicate Fed(steps: seq<Step>, parse: string -> Id) {
    forall i :: 0 <= i < |steps| && steps[i].Insert? ==> FromEngine(steps[i].reward, parse)
  }

  ghost predicate FromEngine(reward: Reward, parse: string -> Id) {
    exists rule, event :: Produces(rule, event, parse, reward) && !NegativeSplit(rule, event)
  }

  ghost predicate NoneNegative(s: Db) {
    forall id :: id in s.rewards ==> s.rewards[id].amountCents >= 0
  }

  lemma {:induction false} StepStaysNonNegative(s: Db, step: Step, t: Db, parse: string -> Id)
    requires NoneNegative(s) && Next(s, step, t) && (step.Insert? ==> FromEngine(step.reward, parse))
    ensures NoneNegative(t)
  {
    StepKeepsRewards(s, step, t);
    if step.Insert? {
      var rule, event :| Produces(rule, event, parse, step.reward) && !NegativeSplit(rule, event);
      NegativeAmountIff(rule, event);
    }
  }

  lemma {:induction false} FedStaysNonNegative(ss: seq<Db>, steps: seq<Step>, parse: string -> Id, i: nat)
    requires IsRun(ss, steps) && Fed(steps, parse) && NoneNegative(ss[0]) && i < |ss|
    ensures NoneNegative(ss[i])
  {
    if i > 0 {
      FedStaysNonNegative(ss, steps, parse, i - 1);
      assert Next(ss[i - 1], steps[i - 1], ss[i]);
      StepStaysNonNegative(ss[i - 1], steps[i - 1], ss[i], parse);
    }
  }

  /** From rules to money: in every run that starts without rewards and whose rewards come from valid
      rules and no negative split, a partner's paid rewards never total more than its paid payouts,
      with no hypothesis on amounts or scheduling. */
  lemma {:induction false} FedRunCovered(ss: seq<Db>, steps: seq<Step>, parse: string -> Id, i: nat, k: Key)
    requires IsRun(ss, steps) && Fed(steps, parse) && ss[0].rewards == map[] && i < |ss|
    ensures RewardTotal(ss[i], k) <= PayoutTotal(ss[i], k)
  {
    FedStaysNonNegative(ss, steps, parse, i);
    PaidRewardsCovered(ss, steps, i, k);
  }
}
