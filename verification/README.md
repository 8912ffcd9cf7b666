# IndicaAI backend: verified model

IndicaAI is a referral service. Partners refer leads, rules turn confirmed sales into rewards, rewards
are grouped into Pix payouts, and admins, jobs and workers move both through their states. This
project models the parts of the Go backend where that logic is hard and proves what holds on every
input and over every run:

- the **reward and payout ledger**: reward handlers, payout handlers, the two payout jobs and the Pix
  worker (`Ledger`, `LedgerStore`, `LedgerRuns`, `LedgerExactness`, `LedgerTotals`, `LedgerRewards`,
  `LedgerJobs`, `LedgerEffects`, `LedgerIntake`, `LedgerExamples`, with sums over finite sets in `FiniteSums`);
- the **Redis token bucket** of the rate limiter (`TokenBucket`);
- **refresh-token families** (`RefreshFamilies`, `RefreshEffects`, `RefreshSweeps`,
  `RefreshExamples`, `RefreshRetention`);
- the **reward rules engine** and its rounding (`Rules`, `RuleOutcomes`, `Rounding`);
- the **Argon2 hash string** as it is printed and parsed (`PasswordCodec`, `Base64`, `Decimals`);
- **fraud scoring** (`Fraud`).

Code that changes state is modelled by classes whose methods follow the handlers' statements
(`LedgerStore.Database`, `TokenBucket.Client`, `RefreshFamilies.RefreshStore`, `Rules.Engine`,
`Rules.RuleSchema`). Each handler method is proved equal to a step function and the two jobs meet
the step relation `Ledger.Opens`; the invariants and run theorems are about those steps. What a step does
to each row, and what it leaves alone, is proved once more from the rows themselves (`LedgerEffects`,
`RefreshEffects`, `RuleOutcomes`). A run is a sequence of states and a sequence of steps between them, in any order.
`dafny verify dfyconfig.toml` checks the whole project.

## Main results

- Ledger: `LedgerRuns.RunKeepsInv`, `LedgerRuns.RunLifecycle`, `LedgerExactness.RunExactIff`,
  `LedgerTotals.Overpayment`, `LedgerTotals.PaidRewardsCovered`, `LedgerRewards.RejectionFinalIff`,
  `LedgerRewards.PaymentFinalIff`, `LedgerJobs.OrderIndependent`, `LedgerJobs.JobsAgree`,
  `LedgerIntake.FedRunCovered`, `LedgerEffects.PayoutAfter`, `LedgerEffects.RewardAfter`,
  `LedgerEffects.WorkerPaysIff`, `LedgerEffects.HandlerPaysIff`.
- Token bucket: `TokenBucket.AdmissionBound`, `TokenBucket.BoundIsTight`, `TokenBucket.RefinesExact`,
  `TokenBucket.ExpiryInvisible`, `TokenBucket.EmptyStaysEmptyIff`.
- Refresh tokens: `RefreshFamilies.FamilyLinearity`, `RefreshFamilies.DeadStaysDead`,
  `RefreshFamilies.AcceptedOnce`, `RefreshFamilies.RevokeAllIsFinal`, `RefreshFamilies.RunSweepableIff`,
  `RefreshRetention.SweepsInvisibleIff`, `RefreshEffects.TokenAfter`,
  `RefreshEffects.OtherFamiliesUntouched`.
- Rules: `Rules.ValidationSuffices`, `RuleOutcomes.OutcomeAsPromised`, `Rules.SplitRounding`, `Rules.SplitWithinMaxIff`,
  `Rules.RecurringWithinSaleIff`, `Rounding.RoundingDrift`.
- Password codec: `PasswordCodec.RoundTrip`, `PasswordCodec.VerifyIffSameKey`,
  `PasswordCodec.ReencodeIffCanonical`, `Base64.EncodeDecodeIff`.
- Fraud: `Fraud.ScoreMonotone`, `Fraud.BlockIff`, `Fraud.ClickRuleAgreesIff`, `Fraud.SilenceSpreadsClicks`.

## Assumptions

- A handler, a job and a worker call is one atomic step, and its statements succeed, except where a
  failure is a parameter (`failing`, `transferOk`, `minted`). The worker marks a payout as processing
  and settles it in the same step.
- Generated UUIDs and token hashes are new. In `RefreshFamilies` this is the predicate `Fresh`; in
  `LedgerStore` an insert picks an id that no row has.
- A query gives its rows in any order, which covers every ORDER BY and every Go map order.
- Percentages and reais are exact rationals. Cents, tokens and milliseconds are unbounded integers.
- Redis and its callers read one clock, and the clock of one key does not go back. The theorems about
  traces take a window of at least one millisecond; `RateLimit` itself is also modelled at zero.
- Argon2 is an uninterpreted function that returns as many bytes as it is asked for.
- The service, the workers and the database read one clock, in milliseconds. Where a theorem is about
  what happens later, the clock of a run does not go back (`RefreshFamilies.Forward`).
- The service checks the expiry of a refresh token's JWT; the rest of the check is the flag `valid`.
  `RefreshSweeps` records when each token was given out and lets a token be valid only before its expiry.

## What the code does against what it says

- Both jobs are documented as idempotent, yet they look only for a payout in status pending. A reward in
  a processing payout is grouped again. `RunExactIff` gives the exact guard that is missing and
  `UnguardedJobPaysTwice` a run that pays a reward twice. `Overpayment` is the exact sum overpaid.
- `Paid` and `Cancel` write reward statuses without looking at them. A rejected reward in an open payout
  comes back as approved or is paid, and a paid one comes back as approved: `RejectedComesBack`,
  `RejectedIsPaid` and `PaidComesBack` are runs, and `RejectionFinalIff` and `PaymentFinalIff` say exactly
  when it cannot happen.
- The comment on the worker job says that it skips partners with no Pix key. It does so for an empty key,
  but one NULL Pix column fails the whole run (`NullPixFailsRun`, `NullPixStopsAll`). `WorkerAsDescribedIff`
  says exactly when it pays what the comment says.
- Session revocation is described as killing every refresh token bound to the session. Rotated tokens are
  bound to none, so it ends the login only if nothing was rotated (`RevokeEndsFamilyIff`, with the run
  `RevokeKeepsLogin`). Logging out with a token that was already rotated does not end the login either
  (`LogoutEndsFamilyIff`, `StaleLogoutKeepsLogin`).
- The retention sweep deletes in one statement under a foreign key, so one dangling link refuses all of it.
  `SweepRefused` is a run that gets there. Over a run on a forward clock, every sweep at whatever clock
  would succeed at every point if and only if nobody logs out with a rotated token whose successor was
  revoked before (`RunSweepableIff`).
- The sweep forgets which tokens were used. A token that is still valid when its row goes would be answered
  as not found instead of as theft, and its family would live on. That never shows if and only if refresh
  tokens live no longer than the 30 days rows are kept, one tick more included (`SweepsInvisibleIff`). The
  default of 720 hours meets it exactly; the setting is not checked against the sweep.
- The split evaluator limits only the sum of its two percentages, so a negative discount lets the commission
  exceed the maximum (`NegativeDiscountOverpays`, with the exact condition in `SplitWithinMaxIff`). A
  recurring percentage has no upper limit (`RecurringPaysOverSale`, `RecurringWithinSaleIff`).
- The schema lists gt, lt, in and between as condition operators; the engine tests only eq and neq and lets
  all others pass (`UntestedOperatorsIgnored`, `SmallSalePasses`).
- A reward can be negative. It is so exactly when a split's commission rounds below zero
  (`NegativeAmountIff`).
- `checkClickVelocity` is described per link, but its query counts over all links of the partner. The two
  agree on every click history over a set of links if and only if that set has at most one
  (`ClickRuleAgreesIff`); 26 clicks over one link and 25 over another tell them apart (`TwoLinksDisagree`).

## Model

| member | source | states |
|---|---|---|
| LedgerStore.Database.Approve | internal/api/handlers/rewards/handler.go:131-145 | only a pending reward of the tenant is approved and stamped; success exactly when a row changed, nothing else written |
| LedgerStore.Database.Reject | internal/api/handlers/rewards/handler.go:164-177 | only a pending or approved reward of the tenant is rejected; success exactly when a row changed |
| LedgerStore.Database.Confirm | internal/api/handlers/payouts/handler.go:133-164 | pending becomes processing; "already confirmed" exactly for a processing or paid payout of the tenant, with no write |
| LedgerStore.Database.MarkPaid | internal/api/handlers/payouts/handler.go:207-238 | a processing payout becomes paid together with its rewards in the tenant; "already paid" exactly for a paid one, with no write |
| LedgerStore.Database.Cancel | internal/api/handlers/payouts/handler.go:282-303 | an open payout is cancelled and its rewards in the tenant go back to approved; otherwise no write |
| LedgerStore.Database.ProcessPayout | internal/workers/payouts/worker.go:37-88 | an open payout counts an attempt and ends paid with its rewards, failed with them untouched, or pending if not Pix; success exactly without a failed lookup or transfer |
| LedgerStore.Database.FetchEligibleRewards | internal/workers/payouts/create_payouts_job.go:128-153 | returns each selected reward once with its columns, in any order, and fails exactly when a needed Pix column is NULL |
| LedgerStore.GroupByPartner | internal/workers/payouts/create_payouts_job.go:156-172 | the loop leaves exactly the keys seen, each with the rows of that key in query order, their sum, and the first row's Pix data |
| LedgerStore.GroupTotalsAddUp | internal/workers/payouts/create_payouts_job.go:156-172 | the group totals add up to the total of all rows: grouping loses and doubles nothing |
| LedgerStore.GroupRows | internal/workers/payouts/create_payouts_job.go:94-99 | what the loop collected for a key is the declarative group of that partner and tenant, each reward once, with the sum of the reward amounts |
| LedgerStore.Database.InsertPayout | internal/workers/payouts/create_payouts_job.go:186-198 | adds one pending Pix payout under an unused id and changes no other |
| LedgerStore.Database.PayGroups | internal/workers/payouts/create_payouts_job.go:66-116 | the loop, in any order over the map, opens exactly one payout for every key that has a Pix key, no pending payout and no failing statement |
| LedgerStore.Database.RunCreatePayoutsJob | internal/workers/payouts/create_payouts_job.go:45-125 | the whole job: one new payout for each key due, holding its whole group and sum; all old payouts and rewards unchanged; nothing at all when a scan fails; `created` counts them |
| LedgerStore.Database.GroupHandlerRows | internal/api/handlers/payouts/handler.go:352-359 | each partner gets exactly its selected rewards, once each |
| LedgerStore.Database.SumRewards | internal/api/handlers/payouts/handler.go:373-378 | the loop's total is the sum of the reward amounts |
| LedgerStore.Database.CreatePayoutsJob | internal/api/handlers/payouts/handler.go:323-404 | the handler job of one tenant: the same outcome for its own selection, a NULL key type skipping only its group |
| LedgerRuns.JobHonoursHold | internal/workers/payouts/create_payouts_job.go:129-138 | a job puts into a new payout only approved rewards whose hold, by default seven days, is over at its clock, by the partner's program in the worker job and the reward's own in the handler job |
| LedgerRuns.StepKeepsSound | internal/api/handlers/payouts/handler.go:372-394 | every step keeps every payout at distinct rewards of its own partner and tenant and an amount equal to their sum, by method Pix |
| LedgerRuns.StepLowersRank | internal/workers/payouts/worker.go:50-83 | every step changes a payout only in status and attempts, and a changed status is strictly lower in rank; the worker's return to pending never happens |
| LedgerRuns.StepKeepsOnePending | internal/api/handlers/payouts/handler.go:363-370 | every step keeps at most one pending payout per partner and tenant |
| LedgerRuns.StepKeepsCovered | internal/api/handlers/payouts/handler.go:207-238 | every step keeps each paid reward inside some paid payout |
| LedgerRuns.RunKeepsInv | internal/workers/payouts/create_payouts_job.go:94-116 | at every point of every run all payouts are sound, at most one is pending per owner, and paid rewards are covered, with no assumption on scheduling |
| LedgerRuns.RunLifecycle | internal/workers/payouts/worker.go:50-83 | over any stretch of any run owner, rewards, amount and Pix snapshot of a payout never change, and paid, failed and cancelled are final |
| LedgerRuns.AtMostTwoChanges | internal/api/handlers/payouts/handler.go:133-136 | a payout changes status at most twice in its life, counted along the whole run |
| LedgerEffects.PayoutAfter | internal/api/handlers/payouts/handler.go:133-136 | the status, attempts and every other column of each payout after any step of a sound ledger |
| LedgerEffects.ProcessEnds | internal/workers/payouts/worker.go:50-83 | an open payout ends paid or failed with the transfer, one attempt more; no other payout changes, and a failed transfer leaves all rewards as they were |
| LedgerEffects.NewPayoutAfter | internal/workers/payouts/create_payouts_job.go:186-198 | a new payout comes from a job: pending, to its partner's Pix key of that moment, for the sum of its distinct rewards, and the only new one of its owner |
| LedgerEffects.RewardAfter | internal/api/handlers/rewards/handler.go:131-169 | the status of each reward after any step, its approval stamp (written by approval alone, with the step's clock), and every other column |
| LedgerEffects.NewRewardsFromInserts | internal/workers/attribution/worker.go:243-247 | a new reward is the inserted one, pending |
| LedgerEffects.WorkerPaysIff | internal/workers/payouts/create_payouts_job.go:128-139 | a worker job pays a reward if and only if it is approved, its partner's program exists and its days (7 by default) have passed, no due reward has a NULL Pix column, the key is not empty, no pending payout exists and no statement fails |
| LedgerEffects.HandlerPaysIff | internal/api/handlers/payouts/handler.go:329-398 | the handler job of a tenant pays a reward if and only if it is approved there, its own program exists and its days have passed, its partner is in the tenant with both Pix columns and a key, no pending payout exists and no statement fails |
| LedgerExactness.OtherStepsKeepExact | internal/api/handlers/payouts/handler.go:204-238 | every step but a job keeps each reward in at most one live payout and paid exactly when a paid payout carries it |
| LedgerExactness.StepExactIff | internal/workers/payouts/create_payouts_job.go:175-183 | from an exact state a step leads to an exact state if and only if it groups no reward that lies in a processing payout |
| LedgerExactness.RunExactIff | internal/api/handlers/payouts/handler.go:363-370 | a run is exact throughout if and only if every job in it was safe when it ran |
| LedgerExactness.SafePrefixExact | internal/api/handlers/payouts/handler.go:361-400 | as long as the jobs were safe, the state is exact, whatever comes later |
| LedgerTotals.ExactTotals | internal/api/handlers/payouts/handler.go:372-394 | in an exact state the paid payouts of a partner and tenant total exactly its paid rewards |
| LedgerTotals.SafeRunTotals | internal/api/handlers/payouts/handler.go:204-238 | at every point of a run whose jobs were safe so far, money paid out equals rewards paid, per partner and tenant |
| LedgerTotals.QuietRunExact | internal/api/handlers/payouts/handler.go:361-400 | a run whose jobs open payouts only for partners with none pending or processing keeps each reward in at most one live payout, paid exactly when in a paid one, and totals equal |
| LedgerTotals.PayoutsByReward | internal/workers/payouts/create_payouts_job.go:155-172 | payouts are worth their rewards, each counted once for every payout that carries it |
| LedgerTotals.Overpayment | internal/api/handlers/payouts/handler.go:204-238 | in every sound state what a partner was paid beyond its paid rewards is exactly each reward's amount times the number of paid payouts that carry it beyond the once its status accounts for |
| LedgerTotals.PaidRewardsCovered | internal/workers/payouts/worker.go:69-77 | in every reachable state, with non-negative amounts and no assumption on scheduling, paid rewards never total more than paid payouts, and the totals are equal if and only if no reward worth something has such a surplus |
| LedgerExamples.UnguardedJobPaysTwice | internal/workers/payouts/create_payouts_job.go:175-183 | a run of the real steps in which a job meets a processing payout and the partner is sent twice the amount of its paid rewards |
| LedgerRewards.StatusChangesIff | internal/api/handlers/payouts/handler.go:230-234 | a rejected or paid reward changes status if and only if a step works on an open payout that carries it and cancels that payout or finds the reward rejected; it becomes approved or paid accordingly |
| LedgerRewards.RejectionFinalIff | internal/api/handlers/payouts/handler.go:295-299 | a rejected reward is safe from every next step if and only if no open payout carries it |
| LedgerRewards.RejectedStaysRejected | internal/api/handlers/rewards/handler.go:164-169 | a rejection outside every open payout is final over every run |
| LedgerRewards.PaymentFinalIff | internal/api/handlers/payouts/handler.go:295-299 | a paid reward is safe from every next step if and only if no open payout carries it too |
| LedgerRewards.PaymentStays | internal/api/handlers/payouts/handler.go:230-234 | a payment outside every open payout is final over every run, with no hypothesis on jobs |
| LedgerRewards.PaidStaysPaid | internal/api/handlers/payouts/handler.go:230-234 | if the jobs were safe until a reward is paid, it stays paid over the rest of the run, whatever the later jobs do |
| LedgerExamples.RejectedComesBack | internal/api/handlers/payouts/handler.go:295-299 | a run from the empty ledger in which cancelling a payout approves a rejected reward again |
| LedgerExamples.RejectedIsPaid | internal/api/handlers/payouts/handler.go:230-234 | a run from the empty ledger in which a rejected reward is paid out |
| LedgerExamples.PaidComesBack | internal/api/handlers/payouts/handler.go:295-299 | a run in which a reward paid through one payout is approved again by cancelling a second |
| LedgerJobs.OrderIndependent | internal/workers/payouts/create_payouts_job.go:60-116 | any two outcomes of a job on the same data, whatever the row and map order, are equal up to payout ids and the order in which a payout lists its rewards |
| LedgerJobs.WorkerTwice | internal/workers/payouts/create_payouts_job.go:77-92 | a second worker run at the same clock, with no failed statement, creates nothing |
| LedgerJobs.HandlerTwice | internal/api/handlers/payouts/handler.go:363-370 | the same for the handler job of a tenant |
| LedgerJobs.MatchedKeys | internal/api/handlers/payouts/handler.go:329-338 | on matched data the handler job of a tenant opens payouts for exactly the worker job's keys of that tenant |
| LedgerJobs.JobsAgree | internal/workers/payouts/create_payouts_job.go:128-139 | when rewards match their partners and no Pix column is NULL, one worker job leaves what one handler job per tenant leaves, in any tenant order, up to ids |
| LedgerJobs.WorkerAsDescribedIff | internal/workers/payouts/create_payouts_job.go:40-53 | the worker job opens what its comment says if and only if no due row has a NULL Pix column or nothing is due anyway |
| LedgerExamples.NullPixStopsAll | internal/workers/payouts/create_payouts_job.go:145-149 | a partner with a Pix key is due and gets nothing because another partner's key is NULL |
| LedgerExamples.NullPixFailsRun | internal/workers/payouts/create_payouts_job.go:45-51 | on those tables the job method fails and creates nothing |
| LedgerIntake.OutcomeEntersLedger | internal/workers/attribution/worker.go:229-250 | whatever the engine produces passes the status check and enters the ledger as a pending reward of the event's partner and tenant |
| LedgerIntake.NegativeAmountIff | internal/domain/rules/evaluators.go:64-75 | a valid rule's outcome is negative if and only if it is a split whose commission rounds below zero |
| LedgerIntake.FedRunCovered | internal/workers/attribution/worker.go:205-250 | in every run that starts without rewards and is fed by valid rules and no negative split, paid rewards never total more than paid payouts |
| TokenBucket.Client.RateLimit | internal/platform/cache/redis.go:78-128 | the script on the keyspace: answer, remaining tokens and the one hash written, other keys untouched; with a zero window every call finds a full bucket and leaves no hash |
| TokenBucket.TokensInRange | internal/platform/cache/redis.go:90-100 | on every trace the tokens stay between 0 and the limit and `last` is the latest call |
| TokenBucket.TtlIsCeiling | internal/platform/cache/redis.go:101 | a hash lives for the window rounded up to whole seconds, no longer |
| TokenBucket.RefillIsFloor | internal/platform/cache/redis.go:90-91 | a gap earns the whole tokens of its share of the window, neither more nor fewer |
| TokenBucket.ExpiryInvisible | internal/platform/cache/redis.go:86-101 | with its ceil(window/1000) second expiry the script gives on every trace the answers of a script whose keys never expire |
| TokenBucket.Budget | internal/platform/cache/redis.go:90-98 | over any stretch, admissions plus tokens left stay within one bucket plus what the time earned |
| TokenBucket.AdmissionBound | internal/platform/cache/redis.go:86-100 | of calls i..j at most limit + floor((tj - ti) * limit / window) are admitted, so at most twice the limit within one window |
| TokenBucket.BoundIsTight | internal/platform/cache/redis.go:86-100 | for every configuration a trace of one window admits exactly twice the limit |
| TokenBucket.RefinesExactAt | internal/platform/cache/redis.go:90-98 | call by call the flooring script holds no more and admits no more than a bucket with exact fractions, and is that bucket when every gap earns whole tokens |
| TokenBucket.RefinesExact | internal/platform/cache/redis.go:86-98 | at every prefix of every trace it has admitted no more requests than the exact bucket |
| TokenBucket.RefillPositiveIff | internal/platform/cache/redis.go:91 | a gap earns a token if and only if it lasts at least ceil(window / limit) |
| TokenBucket.SpacedCallAdmitted | internal/platform/cache/redis.go:90-98 | a call at least ceil(window / limit) after the previous one on its key is admitted |
| TokenBucket.EmptyStaysEmptyIff | internal/platform/cache/redis.go:90-100 | from an empty bucket every call of a stretch is refused if and only if every gap times the limit is below the window, since `last` moves on every call |
| RefreshFamilies.RefreshStore.OpenFamily | internal/api/handlers/auth/handler.go:95-125 | registration, login and magic link end by adding one session and one unrevoked token of a new family |
| RefreshFamilies.RefreshStore.RefreshToken | internal/api/handlers/auth/handler.go:223-304 | the rotation, the reuse branch, the failed mint and the two refusals, each with its exact effect and answer |
| RefreshFamilies.RefreshStore.LogOut | internal/api/handlers/auth/handler.go:503-509 | stamps exactly the token with the presented hash |
| RefreshFamilies.RefreshStore.RevokeOne | internal/api/handlers/sessions/handler.go:87-106 | an unrevoked session of the user is revoked with its unrevoked tokens; otherwise not found and no write |
| RefreshFamilies.RefreshStore.RevokeEvery | internal/api/handlers/sessions/handler.go:130-155 | all unrevoked sessions and tokens of the user are stamped, and the count is of those sessions |
| RefreshFamilies.RefreshStore.SweepTokens | internal/workers/lgpd/worker.go:150-155 | deletes all tokens revoked over 30 days ago, or none when a survivor still links to one |
| RefreshFamilies.StepKeepsInv | internal/api/handlers/auth/handler.go:255-296 | every step keeps hashes unique and every family one rotation path of one user in which only the last token may be unrevoked |
| RefreshFamilies.FamilyLinearity | internal/api/handlers/auth/handler.go:246-296 | at every point of every run, sweeps included, the tokens of a family form one path of one user with at most one unrevoked token |
| RefreshFamilies.PathStartsAtLogin | internal/api/handlers/auth/handler.go:286-296 | until a sweep runs, the path starts at the token the login gave out |
| RefreshFamilies.SweepKeepsInv | db/migrations/0001_tenants_and_identity.up.sql:104-118 | under the foreign key a sweep can only cut off the beginning of a path |
| RefreshFamilies.ReuseKillsFamily | internal/api/handlers/auth/handler.go:255-262 | presenting a revoked token leaves its family without an unrevoked one |
| RefreshEffects.AnswerIff | internal/api/handlers/auth/handler.go:230-284 | each of the five answers to a refresh has exactly one cause in the rows |
| RefreshEffects.TokenAfter | internal/api/handlers/auth/handler.go:255-296 | each token after any step: deleted exactly by a sweep of rows over thirty days old, stamped exactly if the step reaches it, linked exactly if replaced, the same in every other column |
| RefreshEffects.NewTokenAfter | internal/api/handlers/auth/handler.go:286-292 | a new token is unrevoked, lives thirty days, and has the user, tenant, family and session its login or its predecessor gives it |
| RefreshEffects.NewTokenIff | internal/api/handlers/auth/handler.go:286-292 | a step gives a token if and only if it is a login or an accepted refresh |
| RefreshEffects.SessionAfter | internal/api/handlers/sessions/handler.go:87-90 | each session after any step: revoked now exactly if it was not and its user revokes it or all |
| RefreshEffects.NewSessionAfter | internal/api/handlers/auth/handler.go:185-191 | a new session comes from a login, unrevoked |
| RefreshEffects.OtherFamiliesUntouched | internal/api/handlers/auth/handler.go:256-259 | a step leaves every family it does not reach exactly as it was, so the other logins of a user survive a reuse, a logout or a session revocation |
| RefreshFamilies.DeadStaysDead | internal/api/handlers/auth/handler.go:255-296 | over every run a family without an unrevoked token never has one again |
| RefreshFamilies.AcceptedOnce | internal/api/handlers/auth/handler.go:264-266 | each token is accepted at most once per run |
| RefreshFamilies.RevokeAllIsFinal | internal/api/handlers/sessions/handler.go:130-142 | after a global logout no token the user had is ever accepted again and its family stays dead, over every run |
| RefreshFamilies.LogoutEndsFamilyIff | internal/api/handlers/auth/handler.go:503-509 | logout ends the family if and only if the presented token is its unrevoked one or the family was dead |
| RefreshFamilies.RevokeEndsFamilyIff | internal/api/handlers/sessions/handler.go:100-103 | revoking a session ends a living family if and only if all that is left of the family is that session's login token; swept or rotated families are covered |
| RefreshExamples.StaleLogoutKeepsLogin | internal/api/handlers/auth/handler.go:503-509 | a run: log in, refresh, log out with the first token, and the family lives |
| RefreshExamples.RevokeKeepsLogin | internal/api/handlers/sessions/handler.go:87-106 | a run: log in, refresh, revoke the session, and the family lives |
| RefreshFamilies.SweepNeverRefusedIff | internal/workers/lgpd/worker.go:150-151 | no sweep at any clock is refused by the foreign key if and only if no token was stamped later than its successor |
| RefreshFamilies.StampsOrderedIff | internal/api/handlers/auth/handler.go:507-508 | on a clock that does not go back every step keeps stamps in order except a logout with a rotated token whose successor is revoked |
| RefreshFamilies.RunSweepableIff | internal/workers/lgpd/worker.go:150-151 | over a run on a clock that does not go back, every sweep would succeed at every point if and only if the run has no stale logout |
| RefreshExamples.SweepRefused | internal/workers/lgpd/worker.go:150-153 | a run: log in, refresh, log out everywhere, log out with the first token, and the sweep is refused |
| RefreshSweeps.SweepsChangeNoLife | internal/workers/lgpd/worker.go:150-151 | leaving all sweeps out of any run changes no family's life at any point, if tokens do not outlive the retention |
| RefreshSweeps.SweepsChangeNoAnswer | internal/api/handlers/auth/handler.go:230-262 | nor does it change any answer to a refresh or to a session revocation |
| RefreshExamples.LateReuse | internal/platform/auth/jwt.go:73-98 | for every longer token life a run in which a swept token is answered as not found and the live token is then accepted |
| RefreshExamples.LateReuseUnswept | internal/api/handlers/auth/handler.go:255-262 | the same run without its sweep: both are answered as theft |
| RefreshRetention.SweepsInvisibleIff | internal/platform/config/config.go:19 | the answers of all runs are those of the same runs without sweeps if and only if the refresh token's life is at most 30 days and one tick |
| Rules.Engine.constructor | internal/domain/rules/engine.go:47-63 | registers exactly the eight built-in evaluators |
| Rules.Engine.EvaluateRule | internal/domain/rules/engine.go:71-101 | conditions, dispatch, errors and common fields as the specification function says, for any registry |
| Rules.CheckConditions | internal/domain/rules/engine.go:104-125 | the loop finds the first condition that fails, and none exactly when all hold |
| Rules.UntestedOperatorsIgnored | internal/domain/rules/engine.go:114-125 | striking every condition but eq and neq from a rule changes no outcome |
| Rules.SmallSalePasses | internal/domain/rules/schema.go:20-24 | a valid rule with the condition that the sale is over 1000 cents pays on a sale of 100 |
| Rules.RuleSchema.Validate | internal/domain/rules/schema.go:105-129 | accepts exactly the valid rules; writes the default window exactly when version and trigger pass and none was given |
| Rules.ValidateReward | internal/domain/rules/schema.go:132-179 | accepts exactly the configurations that their kind of reward asks for |
| Rules.ValidationSuffices | internal/domain/rules/engine.go:71-101 | for every valid rule and event the engine finds an evaluator and reads no absent field; each failure if and only if its cause |
| RuleOutcomes.AcceptedIff | internal/domain/rules/schema.go:105-179 | the accepted rules, kind by kind |
| RuleOutcomes.ConditionMeans | internal/domain/rules/engine.go:114-137 | eq compares the lead status or the decimal sale amount, any other field reads as nil, and neq is the negation |
| RuleOutcomes.PanicsIff | internal/domain/rules/evaluators.go:12-165 | any rule, validated or not, reads an absent field in exactly the listed cases |
| RuleOutcomes.SplitAsPromised | internal/domain/rules/evaluators.go:49-83 | a split pays by the event's two percentages, or all to the partner without a choice, each to the nearest cent, and records them |
| RuleOutcomes.OutcomeAsPromised | internal/domain/rules/evaluators.go:12-185 | every outcome has the amount and the metadata its kind promises, and the ids of its event |
| Rules.PctPaysWithinSale | internal/domain/rules/evaluators.go:24-39 | an accepted percentage rule pays between 0 and the sale |
| Rules.PctMonotone | internal/domain/rules/evaluators.go:126-141 | a larger sale or percentage never pays less |
| Rules.RecurringWithinSaleIff | internal/domain/rules/schema.go:172-175 | a recurring rule that some event meets stays within every sale if and only if its percentage is at most 100, or, when a condition pins the sale amount, its share of that amount rounds to no more |
| Rules.RecurringPaysOverSale | internal/domain/rules/evaluators.go:146-155 | a valid recurring rule of 150 per cent pays 150 cents on a sale of 100 |
| Rules.PointsEarned | internal/domain/rules/evaluators.go:105-121 | with a rate and a sale, points follow the reais spent to within half a point; otherwise they are the flat number, or none |
| Rules.SplitRounding | internal/domain/rules/evaluators.go:64-71 | without negative percentages both parts together exceed the rounded maximum by at most one cent, and fall short by at most one when all of it is used |
| Rules.SplitRoundingReached | internal/domain/rules/evaluators.go:64-71 | splits of a one-cent sale that reach both ends of that bound |
| Rules.SplitWithinMaxIff | internal/domain/rules/evaluators.go:64-70 | an accepted choice keeps the commission between 0 and the rounded maximum on every sale if and only if its percentage is between 0 and the maximum |
| Rules.NegativeDiscountOverpays | internal/domain/rules/evaluators.go:50-70 | a valid split rule of at most 10 per cent accepts commission 50 with discount -40 and pays half the sale |
| Rounding.PaysAtMostIff | internal/domain/rules/evaluators.go:29 | one percentage pays at most what another pays on every sale if and only if it is no larger |
| Rounding.RoundingDrift | internal/domain/rules/evaluators.go:29 | over n sales and any percentage, rounding sale by sale differs from rounding the total by at most n / 2 cents |
| Rounding.DriftReached | internal/domain/rules/evaluators.go:70 | both ends of that bound are reached for every n |
| PasswordCodec.JoinSplit | internal/platform/auth/password.go:77 | joining the parts of any string gives it back, and no part holds a separator |
| PasswordCodec.SplitJoin | internal/platform/auth/password.go:77 | splitting joined separator-free parts gives exactly them |
| PasswordCodec.ScanParamsText | internal/platform/auth/password.go:90-93 | scanning three digit strings reads their numbers if each fits its variable and fails otherwise |
| PasswordCodec.RoundTrip | internal/platform/auth/password.go:46-108 | for all parameters in range, salts and hashes, parsing the encoded string returns exactly those values |
| PasswordCodec.EncodeInjective | internal/platform/auth/password.go:46-54 | two settings with the same text are the same setting |
| PasswordCodec.ReencodeKeepsVerdicts | internal/platform/auth/password.go:58-74 | re-encoding any accepted string changes neither its values nor the verdict on any password |
| PasswordCodec.ReencodeIffCanonical | internal/platform/auth/password.go:76-108 | an accepted string is its own encoding if and only if its parts are in plain form (no spaces, signs, leading zeros, line breaks, trailing input or stray bits) |
| PasswordCodec.VerifyIffSameKey | internal/platform/auth/password.go:58-74 | against a stored hash a password passes if and only if it derives the same key |
| PasswordCodec.VerifyHashed | internal/platform/auth/password.go:31-74 | the password that was hashed passes, for every password and salt |
| PasswordCodec.VerifyUsesStored | internal/platform/auth/password.go:58-74 | verification derives a key of the stored length with the stored settings and compares |
| PasswordCodec.VerifyFailsIff | internal/platform/auth/password.go:58-62 | it fails exactly on the strings that do not parse, with the parser's error |
| PasswordCodec.ParseErrorIff | internal/platform/auth/password.go:76-105 | each parse error has exactly its cause, the first one met |
| PasswordCodec.HashText | internal/platform/auth/password.go:31-55 | the text of a stored hash, and the error without salt |
| PasswordCodec.SignedVersion | internal/platform/auth/password.go:83 | one sign may stand before the version |
| PasswordCodec.BlanksSkipped | internal/platform/auth/password.go:91 | white space before a number is skipped and a newline refused |
| Base64.DecodeEncode | internal/platform/auth/password.go:47-48 | decoding undoes encoding for every byte string |
| Base64.AlphabetIs | internal/platform/auth/password.go:47-48 | the standard alphabet in its order |
| Base64.SameBits | internal/platform/auth/password.go:47-48 | three bytes and their four sextets are the same 24 bits |
| Base64.Vectors | internal/platform/auth/password.go:47-48 | the unpadded test vectors of section 10 of RFC 4648 |
| Base64.EncodeDecodeIff | internal/platform/auth/password.go:95-105 | of all accepted strings, encoding gives back exactly those with no line break and with zero bits left over by a short last group |
| Decimals.NumeralOfDecimal | internal/platform/auth/password.go:50-52 | a printed number reads as that number |
| Decimals.DecimalOfNumeral | internal/platform/auth/password.go:90-93 | a numeral without leading zeros prints back as itself |
| Fraud.Check | internal/domain/fraud/engine.go:29-86 | the signals listed are exactly those that gave points, each counted once, and score and action follow from them |
| Fraud.SelfReferralIff | internal/domain/fraud/signals.go:12-28 | 50 points exactly when the query succeeds and the partner's row in the tenant has the lead's phone hash, or its email hash and that is not empty |
| Fraud.FailureIsSilent | internal/domain/fraud/signals.go:17-19 | a failed query gives no points |
| Fraud.VelocityIff | internal/domain/fraud/signals.go:32-47 | 20 points exactly when eleven referrals of the partner fall in the last hour |
| Fraud.PhoneDedupIff | internal/domain/fraud/signals.go:51-68 | 30 points exactly when a known phone came with another partner's referral of the last 24 hours |
| Fraud.ClickVelocityIff | internal/domain/fraud/signals.go:72-87 | 25 points exactly when 51 clicks of the partner, over all its links, fall in the last minute |
| Fraud.ClickRuleAgreesIff | internal/domain/fraud/signals.go:70-87 | the query and its per-link description agree on every click history of a partner over a set of links if and only if that set has at most one link |
| Fraud.TwoLinksDisagree | internal/domain/fraud/signals.go:70-87 | 26 clicks over one link and 25 over another fire the signal although no link has over 26 |
| Fraud.HotLinkFires | internal/domain/fraud/signals.go:70-87 | whatever the description calls for does fire |
| Fraud.IpUaDupIff | internal/domain/fraud/signals.go:91-111 | 15 points exactly when 31 clicks of the last hour share one fingerprint |
| Fraud.ImprobableHoursIff | internal/domain/fraud/signals.go:115-124 | 10 points exactly in the UTC hours 5, 6 and 7 |
| Fraud.ScoreMonotone | internal/domain/fraud/signals.go:32-111 | at a fixed clock and partner row, more referrals, leads or clicks, or fewer failing queries, never lower score or action, nor raise the attribution score |
| Fraud.DupGrows | internal/domain/fraud/signals.go:91-111 | the number of fingerprints with over 30 clicks never falls as clicks are added or the window widens |
| Fraud.WaitingNeverAdds | internal/domain/fraud/signals.go:32-111 | with nothing new in the database a later clock makes no signal but the hour of day fire |
| Fraud.BlockIff | internal/domain/fraud/engine.go:57-69 | exactly which combinations of the six signals block |
| Fraud.BlockNeedsMore | internal/domain/fraud/engine.go:63-69 | no signal blocks alone, and without self-referral no two do |
| Fraud.ScoreDecides | internal/domain/fraud/engine.go:63-69 | blocked exactly from 61, reviewed exactly from 31 to 60, with attribution scores 0, 0.3 and 1 |
| Fraud.AloneDecides | internal/domain/fraud/engine.go:57-69 | a signal alone is reviewed if it is self-referral and passes otherwise |
| Fraud.SilenceSpreadsClicks | internal/domain/fraud/signals.go:91-111 | when the fingerprint signal is silent the hour's clicks number at most 30 for each fingerprint |

## Left out

- Statements of one handler interleaving with another's, or failing in the middle of a handler: a step is atomic here.
- 64-bit overflow of amounts and of token products, and IEEE rounding of percentages, of `int64(amount*100)` and of the Lua script's numbers.
- A negative rate-limit window, a zero one with a negative limit or a hash stamped in the future, and Redis or transport errors.
- Manual edits, deletions and cascades in the tables; rewards enter the ledger only as the attribution worker inserts them, pending.
- The idempotency-key cache of `Confirm`, audit logs, failure reasons, receipts, retry times and other columns no transition reads.
- `ScheduleCreatePayoutsJob`: when the job runs does not matter to theorems over all runs.
- Signing and parsing of JWTs, SHA-256 and Argon2 themselves, including what Argon2 does on zero parameters.
- Session expiry, access tokens and cookies: refresh answers depend on `refresh_tokens` rows alone.
- Generation failures in Register, Login and VerifyMagicLink, which leave at most a session without a family.
- JSON decoding of rules, events and split choices; a condition's value enters as its printed text.
- Rule limits, attribution, click tracking, the goal recalculation worker and the partner wallet query.
- UTF-8: strings are sequences of characters, and invalid encodings are not modelled.
- The evidence map of a fraud result and `LogAudit`, which carry no decision.
- LGPD export and erasure, consents, webhooks and everything under `web/`.
