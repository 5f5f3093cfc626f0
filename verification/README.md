# Open Station: proofs about the money and admission core

Open Station is a gateway in front of LLM providers. This project models the
parts of it that decide who may spend, who pays, and which upstream account is
used, and proves what those parts keep over whole runs.

- **Funding.** A request is paid from the token quota, else the balance, else
  approved credit (`Quota`). Used credit becomes settlement bills that are paid
  in parts (`Settlement`); balances are topped up by payment callbacks
  (`Payment`); credit is applied for, reviewed and adjusted (`CreditWorkflow`).
  `Ledger` puts usage, payments and settlement on one set of books.
- **Usage billing.** Decimal prices and the conversion of a cost into prompt
  tokens (`Decimals`, `Billing`), and the deduct / record / refund protocol run
  by several workers on a bounded queue (`AsyncBilling`).
- **Admission.** The circuit breaker (`Circuit`), account selection
  (`LoadBalancer`), the Redis counters of rate limiting and IP blocking
  (`RateLimit`), and the platform admins with their cache (`PlatformAuth`).

A service is a class whose fields are the tables (or counters) it works on, and
each of its methods is proved equal to a function on values. The laws are
lemmas about those functions and about runs, that is, arbitrary sequences of
steps. Money is an integer number of 10^-9 units, times are integer arguments,
and scores and averages are reals. Database ids, random draws, session tokens,
password verdicts and the order of repository listings are arguments.
`dafny verify dfyconfig.toml` checks everything.

## What the code does that its documentation does not say

Each of these is proved, with the exact condition under which it happens.

- The comment in the credit branch says "partial from balance, remaining from
  credit", but the balance is zeroed before it is subtracted, so the whole cost
  goes on credit. The loss is exactly the old balance, in that branch only
  (`WrittenExceedsMeant`, `LossIsThePartialBranch`).
- The individual check and the individual deduction disagree for a request of
  zero tokens on an exactly used-up quota: the only way an accepted request
  overdraws (`IndividualOverdrawsExactly`). An accepted request that spends the
  balance to exactly zero suspends its user (`IndividualCheckProtects`).
- Credit can pass its limit when checks overlap: by at most k * c with k
  requests in flight of cost at most c, and for every k >= 2 that much is
  reached. One request at a time never passes it (`BoundedOverdraft`,
  `OverdraftIsReached`, `OneAtATimeStaysWithin`). Without a token limit the
  commented order is bounded by (k - 1) * c, but the written one by one unit
  less than k * c; both are reached (`BoundedOverdraftWithoutTokens`,
  `WrittenOverdraftIsReachedWithoutTokens`, `TogetherOverdraftIsReached`).
  Users and members have bounds of the same kind (`UserDebtIsBounded`,
  `MemberOvershootIsBounded`).
- A member deduction through a key whose member quota is missing or belongs to
  another tenant moves the tenant's totals away from its members' sums
  (`DriftKeptExactlyByLinkedKeys`).
- A paid settlement bill opens again on a payment below its stored amount
  (`PaidBillReopensExactly`), and of the overdue bills the check, which lists
  only pending ones, sees exactly those nothing was ever paid on
  (`OverdueIsSeenExactlyWhenUntouched`).
- Settlement days are stored unchecked: a weekly tenant with a day outside 0 to
  6, or a monthly one with a day the month does not have, is not billed
  (`CycleBillsExactly`).
- An order is marked paid before its target is looked up, so an order that
  reaches no account, because its target is missing or it is not a recharge,
  is paid and credits nothing, with or without an error, and nothing later
  makes it good (`PaidButNotCredited`, `PaidOrderPaysNothingMore`).
- Applying again is the one step that takes an approved tenant's credit away. It
  also stops the settling of what the tenant used, in every run until a pending
  application of it is approved (`CreditIsLostExactly`,
  `ReapplyingFreezesCredit`).
- Stopping the billing queue is graceful only for what workers hold: queued
  events can be left behind for good if and only if there are any when it is
  told to stop (`StopAbandonsExactly`, `StoppedQueueKeepsItsEvents`).
- The call that turns a breaker half-open is admitted but not counted, so an
  episode has HalfOpenMaxRequests + 1 calls and recovers if and only if
  SuccessThreshold is at most that (`RecoversExactlyWithinBudget`).
- The fixed window lets at most 2 * limit - 1 hits through in any interval of
  one window length, and that bound is reached (`BoundIsReached`).
- The last active super admin can be lost, but only by giving itself a status
  other than active, inactive and suspended
  (`GuardedUpdateLosesLastSuperExactly`). A session check between an update's
  eviction and its write leaves a stale cache entry unless the admin was not
  active or the update changes nothing (`CheckBetweenEvictAndWriteGoesStale`,
  `DeactivatedAdminStillValidates`).
- Resetting an account's statistics is safe if and only if every one of its
  requests has ended and reported (`ResetIsSafeExactly`). Otherwise connection
  counts can go negative, where the scan for the least connections takes -1 for
  "nothing seen yet" (`LostMinimumIsNotReturned`,
  `ResetMisleadsLeastConnections`), or the success rate becomes infinite
  (`SuccessAfterResetIsInfinite`).

## Model

| member | source | states |
|---|---|---|
| Quota.QuotaService.CheckUsageAllowance | internal/application/service/quota_service.go:36-45 | dispatches on the key's quota type to the two-layer check; unknown types are an error; reads only |
| Quota.QuotaService.CheckIndividualQuota | internal/application/service/quota_service.go:49-74 | the individual verdict: user missing, suspended, within tokens, within balance, or insufficient |
| Quota.QuotaService.CheckMemberQuota | internal/application/service/quota_service.go:78-106 | member status, token limit and cost limit come first, then the tenant decides |
| Quota.QuotaService.CheckOrganizationQuota | internal/application/service/quota_service.go:110-144 | the tenant verdict: suspended, within tokens, within balance, within credit, over credit, or no source |
| Quota.QuotaService.DeductUsage | internal/application/service/quota_service.go:148-157 | the new tables and the result are those of the written deduction on the old tables |
| Quota.QuotaService.DeductIndividualUsage | internal/application/service/quota_service.go:161-214 | the new user row, and no other row changes |
| Quota.QuotaService.DeductMemberUsage | internal/application/service/quota_service.go:217-228 | the member is counted, silently nothing if it is missing, then the tenant is charged |
| Quota.QuotaService.DeductOrganizationUsage | internal/application/service/quota_service.go:232-296 | the step-by-step waterfall gives the tenant row and the error that the case split on the paying source gives |
| QuotaLaws.OrganizationCheckIsExact | internal/application/service/quota_service.go:110-144 | a check passes if and only if deducting from the same state finds a source and leaves credit within its limit when credit pays |
| QuotaLaws.OrganizationDeductionEffects | internal/application/service/quota_service.go:232-296 | exactly one source pays, the tenant is suspended exactly when none can, counters always move, nothing else does |
| QuotaLaws.IndividualDeductionEffects | internal/application/service/quota_service.go:161-214 | tokens pay for what fits the quota; otherwise the whole cost leaves the balance, the quota is used up, and the user is suspended exactly when nothing is left |
| QuotaLaws.WrittenExceedsMeant | internal/application/service/quota_service.go:258-270 | written and commented order differ only in used credit, only with a positive but too small balance, and by that balance |
| QuotaLaws.IndividualCheckProtects | internal/application/service/quota_service.go:49-74 | an accepted request of some tokens never overdraws or passes the quota, and suspends exactly when it spends the last of the balance |
| QuotaLaws.IndividualOverdrawsExactly | internal/application/service/quota_service.go:161-214 | an accepted request overdraws if and only if it has zero tokens, the quota is exactly used up, and the balance is below the cost |
| QuotaLaws.OrganizationRefusals | internal/application/service/quota_service.go:110-144 | a tenant is refused as without source exactly if deducting would fail so, and as over its credit exactly if deducting would go on credit beyond the limit |
| QuotaLaws.IndividualRefusals | internal/application/service/quota_service.go:49-74 | which refusal a user gets, and that a refused positive balance would be overdrawn by deducting |
| QuotaLaws.MemberRefusals | internal/application/service/quota_service.go:78-103 | a member is refused for the first of status, tokens and cost that counting the request would break |
| QuotaLaws.LayersAnswerInOrder | internal/application/service/quota_service.go:36-106 | which layer answers: missing rows have their own errors, a member's refusal stands before its tenant's |
| QuotaLaws.DeductionTouchesItsRows | internal/application/service/quota_service.go:148-240 | only the rows the key names change, a member's counters by exactly the tokens and the cost, also when its tenant is missing |
| QuotaLaws.CheckRefinesDeduct | internal/application/service/quota_service.go:36-157 | after an accepted check the deduction succeeds, suspends no tenant and keeps balances, credit, token quotas and member limits in bounds |
| QuotaLaws.CheckIsExact | internal/application/service/quota_service.go:36-144 | for any key and some tokens, the two-layer check accepts if and only if the accounts exist and are in service, and deducting from the same state is funded and keeps balance, member limits and credit in bounds |
| QuotaLaws.GuardedRunsStayInBounds | internal/application/service/quota_service.go:36-296 | the same bounds hold after every run of checked requests of all users, members and tenants |
| Members.DriftOfOneDeduction | internal/application/service/quota_service.go:217-240 | how one deduction, on any outcome, moves a tenant's monthly totals against its members' sums |
| Members.MemberTotalsAgree | internal/application/service/quota_service.go:217-296 | over every run through linked keys tenant totals and members' sums move together, suspension and missing source included |
| Members.DriftKeptExactlyByLinkedKeys | internal/application/service/quota_service.go:217-240 | a member deduction that counts something keeps every tenant's tokens and costs with its members' sums if and only if the key's member quota exists and belongs to the key's tenant, or the key reaches no tenant's counters |
| Overdraft.DeductionOnCredit | internal/application/service/quota_service.go:242-285 | a deduction puts at most its cost on credit, and once credit has paid, tokens and balance cannot admit again |
| Overdraft.StepKeepsInv | internal/application/service/quota_service.go:110-296 | every admission, deduction and settlement keeps: used credit plus costs in flight is at most limit + k * c, and over the limit only credit can admit |
| Overdraft.BoundedOverdraft | internal/application/service/quota_service.go:110-296 | over every interleaving with at most k requests in flight of cost at most c, used credit never exceeds the limit by more than k * c |
| Overdraft.QuietStart | internal/application/service/quota_service.go:110-144 | every tenant within its limit and without requests in flight is a valid start of such a run |
| Overdraft.OneAtATimeStaysWithin | internal/application/service/quota_service.go:110-296 | with a single request in flight used credit never passes the limit |
| Overdraft.OverdraftIsReached | internal/application/service/quota_service.go:110-296 | for every k >= 2 and every cost c a run with k requests in flight ends at exactly limit + k * c, so the bound is tight |
| Overdraft.BoundedOverdraftWithoutTokens | internal/application/service/quota_service.go:110-296 | for tenants without a token limit: the commented order passes the limit by at most (k - 1) * c, the written one by at most k * c less one unit |
| Overdraft.WrittenOverdraftIsReachedWithoutTokens | internal/application/service/quota_service.go:110-296 | for every k >= 2 and c >= 1 the written order reaches its bound without tokens |
| Overdraft.TogetherOverdraftIsReached | internal/application/service/quota_service.go:110-296 | in either order k requests that each still fit end at limit + (k - 1) * cost, so the commented order's bound is tight as well |
| Overlap.UserDebtIsBounded | internal/application/service/quota_service.go:49-74 | over every interleaving of at most k requests of cost at most c, an individual user without debt at the start never owes more than k * c, and is not active while it owes |
| Overlap.MemberOvershootIsBounded | internal/application/service/quota_service.go:78-106 | over the same interleavings a member passes its token limit by at most (k - 1) * n and its cost limit by at most (k - 1) * c |
| Settlement.SettlementService.CheckSettlementTrigger | internal/application/service/settlement_service.go:35-134 | the trigger for every settlement cycle, or tenant not found |
| Settlement.SettlementService.TriggerSettlement | internal/application/service/settlement_service.go:137-181 | the two guards, one new bill for the whole used credit, used credit reset |
| Settlement.SettlementService.CalculateDueDate | internal/application/service/settlement_service.go:184-204 | 15, 7 or 10 days by cycle, 15 for any other |
| Settlement.SettlementService.ProcessSettlementBill | internal/application/service/settlement_service.go:207-242 | only settlement bills can be paid; the bill becomes paid or partially paid with the rest left on it |
| Settlement.SettlementService.RunScheduledSettlement | internal/application/service/settlement_service.go:298-337 | the loop over listed tenants gives the books and results of visiting them in order, errors included |
| Settlement.SettlementService.CheckOverdueBills | internal/application/service/settlement_service.go:245-287 | exactly the tenants with an overdue pending settlement bill are suspended, and exactly those bills are reported, once each and newest first |
| SettlementLaws.RunsBillExactly | internal/application/service/settlement_service.go:298-337 | over any sequence of scheduled runs a tenant's credit is billed if and only if some run lists it on a day it is due, and its row changes in nothing else |
| SettlementLaws.CycleBillsExactly | internal/application/service/settlement_service.go:35-134 | daily runs from the first of a month, or over up to seven days, bill a tenant if and only if it may spend credit, used some, and its settlement day is among those days or its threshold is reached |
| SettlementLaws.TriggerForetellsTheBill | internal/application/service/settlement_service.go:35-181 | the amount a trigger announces is the amount of the bill |
| SettlementLaws.VisitReportsExactly | internal/application/service/settlement_service.go:307-334 | what a tenant's turn reports: its failure, its bill, or nothing; only a threshold of zero or less asks to settle nothing |
| SettlementLaws.ScheduledReportsAreTrue | internal/application/service/settlement_service.go:298-337 | every reported settlement is a new bill of that tenant and amount, there is one report per new bill, and exactly the listed tenants that do not exist fail as not found |
| SettlementLaws.SettlingCreatesAPendingBill | internal/application/service/settlement_service.go:137-204 | which tenants can be settled and with which refusal; the new bill is pending, for exactly the used credit, due after 7, 10 or 15 days |
| SettlementLaws.SettledTenantIsOverdueExactly | internal/application/service/settlement_service.go:137-287 | from books without bills the overdue check suspends a settled tenant if and only if those days are over and nothing was paid |
| SettlementLaws.OnlyDueSettlementBillsSuspend | internal/application/service/settlement_service.go:245-287 | a tenant is overdue only by a pending settlement bill whose due date has passed |
| SettlementLaws.PaymentTouchesOneBill | internal/application/service/settlement_service.go:207-242 | a payment changes at most the settlement bill it names; usage bills are refused; no tenant changes |
| SettlementLaws.SettleKeepsOwed | internal/application/service/settlement_service.go:137-181 | settling moves used credit onto a bill: no tenant owes more or less in total, no older bill changes |
| SettlementLaws.ScheduledRunKeepsOwed | internal/application/service/settlement_service.go:298-337 | the same for a whole scheduled run over any list |
| SettlementLaws.ScheduledRunBillsTheDrop | internal/application/service/settlement_service.go:298-337 | the new bills total the drop in all used credit, and that is what the results report |
| SettlementLaws.ScheduledRunSettlesExactly | internal/application/service/settlement_service.go:298-337 | exactly the listed tenants that are due have their credit reset; every other tenant row is unchanged |
| SettlementLaws.ScheduledRunIsIdempotent | internal/application/service/settlement_service.go:298-337 | a second run on the same day over listed tenants creates no bill and changes no tenant |
| SettlementLaws.PaidExactlyWhenCovered | internal/application/service/settlement_service.go:207-242 | a bill paid in parts is paid if and only if the payments reach its original amount, and until then asks for exactly the rest |
| SettlementLaws.PaidBillReopensExactly | internal/application/service/settlement_service.go:207-242 | a paid bill opens again if and only if a payment is below its stored amount |
| SettlementLaws.AnyPaymentHidesFromOverdue | internal/application/service/settlement_service.go:245-287 | after any payment the overdue check does not see the bill |
| SettlementLaws.OverdueIsSeenExactlyWhenUntouched | internal/application/service/settlement_service.go:207-287 | of the overdue bills, exactly those nothing was ever paid on are seen, however much is still due |
| Payment.PaymentService.CancelPaymentOrder | internal/application/service/payment_service.go:148-164 | only a pending order is cancelled |
| Payment.PaymentService.ProcessPaymentCallback | internal/application/service/payment_service.go:167-211 | the found order must be pending and paid to 99%; it is marked paid and then credited |
| Payment.PaymentService.FindOrder | internal/application/service/payment_service.go:167-178 | by payment id, then by order number, and none only if neither matches |
| Payment.PaymentService.ProcessPayment | internal/application/service/payment_service.go:223-232 | crediting by payment mode; other modes are an error |
| Payment.PaymentService.ProcessIndividualPayment | internal/application/service/payment_service.go:235-264 | a recharge adds the amount and activates a user pending payment; missing targets and other types are errors |
| Payment.PaymentService.ProcessOrganizationPayment | internal/application/service/payment_service.go:267-297 | a recharge adds the amount to the tenant; settlement and subscription orders change nothing |
| Payment.PaymentService.CheckExpiredOrders | internal/infrastructure/persistence/postgres/repositories/repositories.go:2461-2467 | exactly the pending orders past their expiry become expired |
| Payment.StepCredits | internal/application/service/payment_service.go:148-297 | one step raises an account's balance by exactly the amounts of orders it newly marks paid into it |
| Payment.AtMostOnceCrediting | internal/application/service/payment_service.go:148-297 | over every run of duplicated, reordered and interleaved steps the balance gain equals the amounts of the orders newly paid into the account, each once, and at least 99% of it was reported as received |
| Payment.SettledOrdersAreFinal | internal/application/service/payment_service.go:148-211 | paid, cancelled and expired orders never change again; pending ones keep amount and target |
| Payment.CallbackPaysExactly | internal/application/service/payment_service.go:167-211 | a callback pays its order if and only if it is pending and at least 99% arrived; otherwise nothing changes and the error says which |
| Payment.LookupExactly | internal/application/service/payment_service.go:167-178 | an order with the payment id, else one with the order number, else none |
| Payment.CreditTouchesOneAccount | internal/application/service/payment_service.go:223-297 | only the account a recharge names changes, by exactly the amount, and a user waiting for payment becomes active; the errors for missing targets |
| Payment.CancelledIsNeverPaid | internal/application/service/payment_service.go:148-188 | cancelling works exactly on a pending order, and whatever follows it stays cancelled and callbacks for it are refused without effect |
| Payment.ExpiredIsNeverPaid | internal/infrastructure/persistence/postgres/repositories/repositories.go:2461-2467 | expiry takes exactly the pending orders whose time is over, and late callbacks for them are refused without effect |
| Payment.PaidButNotCredited | internal/application/service/payment_service.go:190-297 | an accepted callback marks the order paid and changes no account if and only if there is no existing account the order recharges with an effect; which of these cases return an error |
| Payment.PaidOrderPaysNothingMore | internal/application/service/payment_service.go:148-211 | whatever follows, a paid order stays as it is and every account gains exactly what the other orders pay |
| Ledger.EventMoves | internal/application/service/quota_service.go:232-296 | one event of any kind changes a tenant's position by recharge, bill payment, funded cost and the written order's loss only |
| Ledger.LedgerConservation | internal/application/service/quota_service.go:232-296 | over every run of usage, payments, settlements and bill payments: balance - used credit - still due = start + recharged + paid on bills - funded cost - loss |
| Ledger.BillPaymentMoves | internal/application/service/settlement_service.go:207-242 | what a payment takes off a tenant's due amount, on open and on paid bills |
| Ledger.LossIsThePartialBranch | internal/application/service/quota_service.go:258-270 | the loss is zero if and only if the order is the commented one or the run never enters the partial branch |
| Ledger.UserLedgerConservation | internal/application/service/quota_service.go:161-214 | over the same runs a user's balance = start + recharged - cost of the requests the token quota did not cover |
| CreditWorkflow.CreditApplicationService.ApplyForCredit | internal/application/service/credit_application_service.go:36-82 | only organizations without a pending latest application; new row and pending tenant |
| CreditWorkflow.CreditApplicationService.UpdateApplication | internal/application/service/credit_application_service.go:104-137 | only pending rows; only the given fields, and only a positive limit, change |
| CreditWorkflow.CreditApplicationService.CancelApplication | internal/application/service/credit_application_service.go:149-177 | only pending rows; the row is deleted and the tenant has no credit |
| CreditWorkflow.CreditApplicationService.ApproveApplication | internal/application/service/credit_application_service.go:192-240 | only pending rows; the row is approved and the tenant gets limit and terms |
| CreditWorkflow.CreditApplicationService.RejectApplication | internal/application/service/credit_application_service.go:249-288 | only pending rows; row and tenant are rejected |
| CreditWorkflow.CreditApplicationService.AdjustCreditLimit | internal/application/service/credit_application_service.go:291-307 | only approved tenants; only the limit changes |
| CreditWorkflow.Latest | internal/infrastructure/persistence/postgres/repositories/repositories.go:2151-2161 | the tenant's last created application, none only if it has none |
| CreditWorkflow.StepKeepsInv | internal/application/service/credit_application_service.go:36-307 | every operation keeps the workflow invariant |
| CreditWorkflow.CreditWorkflowInvariant | internal/application/service/credit_application_service.go:36-307 | in every reachable state a pending application is its tenant's last, a tenant is marked pending exactly when it has one, and an approved tenant has a limit |
| CreditWorkflow.PendingMeansLatest | internal/application/service/credit_application_service.go:48-54 | looking only at the latest application finds a pending one if and only if the tenant is marked pending, and there is at most one |
| CreditWorkflow.ApprovalGrantsTheApplication | internal/application/service/credit_application_service.go:192-240 | approval grants the approved limit on the application's own terms to its own tenant, and touches no money and no other row |
| CreditWorkflow.ApplyingExactly | internal/application/service/credit_application_service.go:36-82 | which applications are refused; an accepted one becomes the tenant's latest, pending, as requested, and changes only that tenant's credit status |
| CreditWorkflow.OnlyPendingApplicationsChange | internal/application/service/credit_application_service.go:104-288 | decided applications cannot be revised, cancelled, approved or rejected, and nothing changes |
| CreditWorkflow.UnknownApplicationsChangeNothing | internal/application/service/credit_application_service.go:104-288 | unknown applications are refused by all four operations without effect |
| CreditWorkflow.RevisedTermsAreGranted | internal/application/service/credit_application_service.go:36-240 | applying, revising and approving grants the approved limit on the terms of the revision where it names them and of the application where it does not |
| CreditWorkflow.EndingAnApplication | internal/application/service/credit_application_service.go:149-288 | rejecting marks exactly that row and tenant rejected; cancelling removes exactly that row and leaves the tenant without credit |
| CreditWorkflow.DecidedApplicationsAreFinal | internal/application/service/credit_application_service.go:36-307 | approved and rejected applications are kept unchanged in every run |
| CreditWorkflow.AdjustingExactly | internal/application/service/credit_application_service.go:291-307 | only approved tenants are adjusted, only in their limit, and a limit below what is used stops all spending on credit |
| CreditWorkflow.CreditIsLostExactly | internal/application/service/credit_application_service.go:36-307 | one step takes usable credit from a tenant if and only if the tenant, an organization, applies again |
| CreditWorkflow.CreditIsGainedExactly | internal/application/service/credit_application_service.go:36-307 | a tenant that is not approved becomes so in one step if and only if the step approves a pending application of it; no step changes used credit |
| CreditWorkflow.NoCreditWithoutApproval | internal/application/service/credit_application_service.go:36-307 | in every run without such an approval a tenant that is not approved stays so, with the same used credit |
| CreditWorkflow.ReapplyingFreezesCredit | internal/application/service/credit_application_service.go:36-82 | after applying again a tenant has no usable credit and cannot settle what it used, in every run until a pending application of it is approved |
| CreditWorkflow.WithdrawingRestoresNothing | internal/application/service/credit_application_service.go:149-288 | cancelling or rejecting the new application ends its pending state and restores neither credit nor settlement |
| Decimals.RoundDivCancel | internal/application/service/billing_service.go:42-74 | scaling both sides of a rounded quotient changes nothing: stored scales do not matter |
| Decimals.RoundingReachesOne | internal/application/service/billing_service.go:122-153 | a proper fraction rounded to multiples of 1/k reaches one exactly when it is within half of 1/k of it |
| Decimals.RoundThenTruncate | internal/application/service/billing_service.go:122-153 | divide, round, truncate gives the exact quotient, plus one exactly in that case |
| Billing.PriceIsExact | internal/application/service/billing_service.go:42-74 | price per thousand times tokens, divided by a thousand, is not rounded |
| Billing.CostIsExact | internal/application/service/billing_service.go:42-74 | all branches together give the exact cost: each token class at its own price, cached classes at the prompt price when they have none |
| Billing.EquivalentTokensInIntegers | internal/application/service/billing_service.go:122-153 | the decimal conversion as one rounded and one truncated integer division |
| Billing.EquivalentTokensExactly | internal/application/service/billing_service.go:122-153 | for every price and cost of either sign: the exact quotient, one more exactly when the cost is within half of 10^-13 prompt price below the next whole token |
| Billing.EquivalentTokensAreExact | internal/application/service/billing_service.go:122-153 | with prices a decimal(10,6) column can hold the result is the truncated exact quotient of cost by prompt price |
| Billing.PromptTokensAreTheirOwnValue | internal/application/service/billing_service.go:122-153 | plain prompt tokens convert to themselves |
| Billing.CostIsKnownExactlyWithPricing | internal/application/service/billing_service.go:42-74 | no pricing row, no cost; with one, the exact cost |
| Billing.UnpricedTokensCountPlainly | internal/application/service/billing_service.go:122-153 | without a pricing row or a prompt price, input and output tokens count as they are |
| Billing.PlainTokensAreTheirOwnValue | internal/application/service/billing_service.go:122-153 | that fallback is the value for a model whose input and output cost the same |
| AsyncBilling.AsyncBillingQueue.EnqueueBilling | internal/application/service/async_billing.go:101-113 | takes the event if and only if the queue has room |
| AsyncBilling.AsyncBillingQueue.RecordUsage | internal/application/service/billing_service.go:85-120 | alone: charged and recorded, or neither; succeeds exactly if priced, covered, and the row can be created |
| AsyncBilling.AsyncBillingQueue.ServeNext | internal/application/service/async_billing.go:130-158 | one undisturbed turn of a worker equals the four interleavable steps take, deduct, create, refund |
| AsyncBilling.ServedAloneExactly | internal/application/service/billing_service.go:85-120 | an event served alone is recorded, and its exact price leaves exactly its user's balance, if and only if it is priced, covered, the database accepts and no row has its request id; otherwise no balance and no row changes and it has failed |
| AsyncBilling.MovePassesItsEvent | internal/application/service/async_billing.go:130-158 | a worker's move passes its event on between queue, worker, usage table and failures |
| AsyncBilling.MovePassesItsMoney | internal/application/service/billing_service.go:85-120 | a worker's move passes its money on between balance, worker and usage table |
| AsyncBilling.StepKeepsInv | internal/application/service/async_billing.go:101-158 | every step keeps: each accepted event in exactly one place, unique recorded requests, no negative balance |
| AsyncBilling.BillingIsConserved | internal/application/service/async_billing.go:101-158 | over every interleaving of any number of workers with any create failures that invariant holds, and balance + recorded + in flight is constant for each user |
| AsyncBilling.ChargedOnceWhenQuiet | internal/application/service/billing_service.go:85-120 | once no worker is busy, a user has paid exactly the sum of the costs of its recorded requests, each recorded once, and every accepted event is queued, recorded or failed |
| AsyncBilling.StopAbandonsExactly | internal/application/service/async_billing.go:94-98 | after Stop, whatever the workers hold, some run without new events ends with all workers gone and events still queued if and only if something is queued when stopping |
| AsyncBilling.StopClearsExactly | internal/application/service/async_billing.go:94-138 | after Stop some run without new events ends with all workers gone and the queue empty if and only if nothing is queued or some worker has not left |
| AsyncBilling.StoppedQueueKeepsItsEvents | internal/application/service/async_billing.go:94-98 | once all workers have left, no balance or table changes in any run and queued events stay, so what is abandoned is lost |
| AsyncBilling.EnqueueKeepsOrder | internal/application/service/async_billing.go:101-113 | an event is accepted, behind all others, if and only if the queue has room |
| AsyncBilling.TakeKeepsOrder | internal/application/service/async_billing.go:130-138 | an idle worker takes the oldest event not yet served |
| AsyncBilling.QueueIsFifo | internal/application/service/async_billing.go:101-138 | in every run the queue holds the latest accepted events in order, within its capacity |
| AsyncBilling.WorkersStayUntilStopped | internal/application/service/async_billing.go:94-138 | no worker leaves in any run without Stop |
| Circuit.CircuitBreaker.constructor | pkg/circuit/circuit.go:77-82 | starts closed with zero counters and no failure |
| Circuit.CircuitBreaker.AllowRequest | pkg/circuit/circuit.go:85-113 | verdict and new fields in each state |
| Circuit.CircuitBreaker.RecordSuccess | pkg/circuit/circuit.go:116-133 | failures reset; in half-open successes count and may close |
| Circuit.CircuitBreaker.RecordFailure | pkg/circuit/circuit.go:136-154 | failure time always kept; closed counts and may open, half-open opens |
| Circuit.CircuitBreaker.ResetBreaker | pkg/circuit/circuit.go:254-267 | closed with zero counters; the last failure time stays |
| Circuit.CountersAreExplained | pkg/circuit/circuit.go:85-154 | after every history: closed counts exactly the failures since the last success or reset, below the threshold; half-open has admitted exactly one more than it counted, within budget; the failure time is the last one reported |
| Circuit.OpensExactlyOnTheThreshold | pkg/circuit/circuit.go:136-154 | a closed breaker opens if and only if the event completes a run of FailureThreshold failures |
| Circuit.HalfOpenLeavesExactly | pkg/circuit/circuit.go:116-154 | after every history a half-open breaker opens exactly on a failure and closes exactly on a reset or the success that completes SuccessThreshold of the episode |
| Circuit.FailedProbeWaits | pkg/circuit/circuit.go:91-104 | after a failed probe a call is admitted if and only if more than ResetTimeout has passed since |
| Circuit.OpenLeavesExactly | pkg/circuit/circuit.go:85-154 | an open breaker changes exactly on a call more than ResetTimeout after the last failure, or on a reset |
| Circuit.VerdictsAreExplained | pkg/circuit/circuit.go:85-113 | the answer to every call, and its error, from the history alone |
| Circuit.OpenWaitsForEveryFailure | pkg/circuit/circuit.go:91-104 | an open breaker admits a call if and only if more than ResetTimeout has passed since every failure in its history |
| Circuit.EpisodeClosesOnReports | pkg/circuit/circuit.go:94-133 | an episode closes exactly with its SuccessThreshold-th success and admits at most HalfOpenMaxRequests + 1 calls |
| Circuit.UnrecoverableEpisodesNeverClose | pkg/circuit/circuit.go:94-133 | with a threshold above the budget no episode fed by its own probes ever closes |
| Circuit.RefusedForever | pkg/circuit/circuit.go:94-109 | once such an episode has spent its budget every later call is refused, at any time |
| Circuit.RecoversExactlyWithinBudget | pkg/circuit/circuit.go:94-133 | some episode fed by its own probes closes if and only if SuccessThreshold is at most HalfOpenMaxRequests + 1 |
| LoadBalancer.LoadBalancer.GetAccountStats | pkg/loadbalancer/loadbalancer.go:431-440 | creates default statistics on first use; readers cannot tell |
| LoadBalancer.LoadBalancer.SelectAccount | pkg/loadbalancer/loadbalancer.go:120-155 | none exactly without usable accounts, else a usable account that is the strategy's pick; only round robin advances the index |
| LoadBalancer.LoadBalancer.FilterUsableAccounts | pkg/loadbalancer/loadbalancer.go:158-166 | the usable accounts in order |
| LoadBalancer.Usable | pkg/loadbalancer/loadbalancer.go:158-166 | an account is kept if and only if it is listed and usable |
| LoadBalancer.LoadBalancer.IsAccountUsable | pkg/loadbalancer/loadbalancer.go:169-190 | status, monthly limit, error count and cooldown |
| LoadBalancer.LoadBalancer.SelectByRoundRobin | pkg/loadbalancer/loadbalancer.go:201-209 | the incremented index modulo the list length |
| LoadBalancer.LoadBalancer.SelectByWeightedRoundRobin | pkg/loadbalancer/loadbalancer.go:212-252 | the total weight is positive, and the account whose weight interval holds the draw is returned, always from inside the loop |
| LoadBalancer.LoadBalancer.CollectWeights | pkg/loadbalancer/loadbalancer.go:213-237 | effective weights and their sum |
| LoadBalancer.LoadBalancer.DrawByWeight | pkg/loadbalancer/loadbalancer.go:239-252 | the running sum finds the draw's interval; the trailing return is unreachable |
| LoadBalancer.LoadBalancer.SelectByLeastConnections | pkg/loadbalancer/loadbalancer.go:255-270 | the first minimum of connections, unless it is -1 before the last account; then the first minimum of what follows some -1 |
| LoadBalancer.LoadBalancer.SelectByLeastResponseTime | pkg/loadbalancer/loadbalancer.go:273-293 | the first account without requests; if there is none, the first minimum of average latency with the same exception for -1 |
| LoadBalancer.MinScanStep | pkg/loadbalancer/loadbalancer.go:255-293 | how one more account moves a scan for the minimum, with its -1 start value |
| LoadBalancer.LostMinimumIsNotReturned | pkg/loadbalancer/loadbalancer.go:255-293 | such a scan returns the first minimum if and only if that minimum is not -1 before the last account |
| LoadBalancer.MaxScanStep | pkg/loadbalancer/loadbalancer.go:296-339 | how one more account moves a scan for the maximum |
| LoadBalancer.LoadBalancer.SelectByHealthScore | pkg/loadbalancer/loadbalancer.go:296-313 | the first maximum of the health score, always |
| LoadBalancer.LoadBalancer.CalculateHealthScore | pkg/loadbalancer/loadbalancer.go:393-426 | the penalties, floored at zero |
| LoadBalancer.LoadBalancer.SelectByAdaptive | pkg/loadbalancer/loadbalancer.go:324-339 | the first maximum of the composite score if some score is above -1, else the first account |
| LoadBalancer.LoadBalancer.CalculateAdaptiveScore | pkg/loadbalancer/loadbalancer.go:342-390 | the weighted composite of five clipped scores, infinite for an infinite success rate |
| LoadBalancer.LoadBalancer.RecordRequestStart | pkg/loadbalancer/loadbalancer.go:443-448 | one more open request and one more in total, for this account only |
| LoadBalancer.LoadBalancer.RecordRequestSuccess | pkg/loadbalancer/loadbalancer.go:451-470 | counts, average, success rate (infinite without a counted request) and a health point above 90%, for this account only |
| LoadBalancer.LoadBalancer.RecordRequestFailure | pkg/loadbalancer/loadbalancer.go:473-486 | counts, success rate and five health points less, for this account only |
| LoadBalancer.LoadBalancer.RecordRequestEnd | pkg/loadbalancer/loadbalancer.go:489-492 | one open request less, for this account only |
| LoadBalancer.LoadBalancer.SetAccountWeight | pkg/loadbalancer/loadbalancer.go:495-498 | only the weight of this account changes |
| LoadBalancer.LoadBalancer.ResetStats | pkg/loadbalancer/loadbalancer.go:533-540 | this account's statistics become the defaults |
| LoadBalancerLaws.ChosenIsItsInterval | pkg/loadbalancer/loadbalancer.go:239-252 | a draw selects index i if and only if it lies in the i-th weight interval |
| LoadBalancerLaws.WeightedSelectionIsExact | pkg/loadbalancer/loadbalancer.go:212-252 | of all draws below the total weight exactly weights[i] select index i, and every weight is at least one |
| LoadBalancerLaws.FullRound | pkg/loadbalancer/loadbalancer.go:201-209 | any n consecutive picks out of n choose each account once, from any start |
| LoadBalancerLaws.RoundRobinIsFair | pkg/loadbalancer/loadbalancer.go:201-209 | any m consecutive picks give each account m / n or one more, and exactly m / n when n divides m |
| LoadBalancerLaws.RoundRobinStartsAtTheSecond | pkg/loadbalancer/loadbalancer.go:201-209 | the first pick for a provider is its second account |
| LoadBalancerLaws.RandomIsUniform | pkg/loadbalancer/loadbalancer.go:316-321 | each of the n lowest draws selects another account, and draws n apart the same |
| LoadBalancerLaws.UsableConcat | pkg/loadbalancer/loadbalancer.go:158-166 | filtering works on each account by itself and keeps order and repetitions |
| LoadBalancerLaws.PriorityPicksFirstUsable | pkg/loadbalancer/loadbalancer.go:120-198 | the default strategies take the first usable account of the list |
| LoadBalancerLaws.UsableAgainExactly | pkg/loadbalancer/loadbalancer.go:169-190 | an account can ever be selected if and only if status, limit and fewer than five errors allow it, and then from the cooldown after its last error on |
| LoadBalancerLaws.HealthScoreInIntegers | pkg/loadbalancer/loadbalancer.go:393-426 | the score as points in whole numbers, without quotients |
| LoadBalancerLaws.AdaptiveScoreLosses | pkg/loadbalancer/loadbalancer.go:342-390 | what the composite falls short of 1 by, per measure; a fresh account without a limit scores 1 |
| LoadBalancerLaws.EffectiveWeight | pkg/loadbalancer/loadbalancer.go:217-232 | the configured weight, at least one, scaled by health and rounded down, but at least one |
| LoadBalancerLaws.StatisticsStayInRange | pkg/loadbalancer/loadbalancer.go:443-540 | over every trace whose outcomes and ends match starts, with resets, the last of them quiet: ActiveConns is the number of open requests, HealthScore in 0..100, SuccessRate in 0..1, averages not negative |
| LoadBalancerLaws.CountersCount | pkg/loadbalancer/loadbalancer.go:443-540 | in every trace totals, successes, failures, latency and connections count exactly what happened since the last reset |
| LoadBalancerLaws.SuccessIsExplained | pkg/loadbalancer/loadbalancer.go:451-470 | a success sets average latency and success rate over all requests and earns a point above nine in ten |
| LoadBalancerLaws.FailureIsExplained | pkg/loadbalancer/loadbalancer.go:473-486 | a failure updates the success rate, keeps the average latency and costs five points |
| LoadBalancerLaws.OtherEventsKeepAverages | pkg/loadbalancer/loadbalancer.go:443-540 | no other event moves averages and health, but a reset, which restores the first values |
| LoadBalancerLaws.AdaptiveScoreInRange | pkg/loadbalancer/loadbalancer.go:342-390 | the composite score of a usable account with such statistics lies in [0, 1] |
| LoadBalancerLaws.AdaptiveScoreIsMonotone | pkg/loadbalancer/loadbalancer.go:342-390 | an account at least as good in all five measures never scores lower, and higher health, success or free capacity strictly wins |
| LoadBalancerLaws.ScansAreOptimal | pkg/loadbalancer/loadbalancer.go:255-339 | with such statistics every scan returns the first optimum among usable accounts, despite the -1 start value |
| LoadBalancerLaws.ResetMiscountsOpenRequests | pkg/loadbalancer/loadbalancer.go:533-540 | in every trace after a reset ActiveConns is below the number of open requests by those that were open at the reset |
| LoadBalancerLaws.ResetIsSafeExactly | pkg/loadbalancer/loadbalancer.go:443-540 | every matched continuation of a reset keeps the statistics in range if and only if at the reset every request has ended and reported its outcome |
| LoadBalancerLaws.SuccessAfterResetIsInfinite | pkg/loadbalancer/loadbalancer.go:451-470 | a success right after a reset stores an infinite success rate, which beats every finite composite score |
| LoadBalancerLaws.ResetMisleadsLeastConnections | pkg/loadbalancer/loadbalancer.go:255-270 | with -1 connections on the first of two accounts the scan takes the other one, however busy it is |
| RateLimit.RedisCounters.IncrementWithExpiry | internal/infrastructure/persistence/redis/rate_limit.go:106-112 | one atomic INCR with EXPIRE on a counter of 1 |
| RateLimit.RedisCounters.CheckDistributedLimit | internal/infrastructure/persistence/redis/rate_limit.go:103-124 | the hit is counted and passes if and only if the count is within the limit |
| RateLimit.RedisCounters.CheckDistributedIPLimit | internal/infrastructure/persistence/redis/safe.go:137-158 | the same per IP with a window of one second |
| RateLimit.RedisCounters.StrikeScript | internal/infrastructure/persistence/redis/safe.go:166-182 | a hit, and at the threshold the counter is traded for a block |
| RateLimit.RedisCounters.RecordAuthFailure | internal/infrastructure/persistence/redis/safe.go:160-186 | the script on the failure counter and the block of the IP |
| RateLimit.RedisCounters.RecordRateViolation | internal/infrastructure/persistence/redis/safe.go:222-248 | the script on the violation counter and the block of the IP |
| RateLimit.IntervalInvHolds | internal/infrastructure/persistence/redis/rate_limit.go:103-124 | after every ascending trace: the live window holds the last hit, and what the interval has admitted fits what its position against that window allows |
| RateLimit.AnyIntervalIsBounded | internal/infrastructure/persistence/redis/rate_limit.go:103-124 | every interval of one window length, aligned or not, admits at most max(0, 2 * limit - 1) hits |
| RateLimit.BoundIsReached | internal/infrastructure/persistence/redis/rate_limit.go:103-124 | for every limit and window of at least two ticks a trace reaches that bound |
| RateLimit.EachWindowAdmitsUpToLimit | internal/infrastructure/persistence/redis/rate_limit.go:103-124 | a window has admitted exactly its hits up to the limit |
| RateLimit.ScriptCountsUntilBlocked | internal/infrastructure/persistence/redis/safe.go:160-186 | until the first block the script's counter is the plain counter and the block key is untouched |
| RateLimit.ScriptBlocksExactly | internal/infrastructure/persistence/redis/safe.go:160-248 | before the first block, the script answers "blocked" if and only if the failure makes the plain counter reach the threshold |
| RateLimit.PackedFailuresAreRefused | internal/infrastructure/persistence/redis/safe.go:100-248 | for failures within one window and blocks at least as long, the IP is refused from failure number max(1, threshold) on and not before |
| RateLimit.UnblockedIpIsSlow | internal/infrastructure/persistence/redis/safe.go:160-186 | an IP never blocked and never reset has at most max(0, 2 * (max - 1) - 1) failures in any interval of one window length |
| RateLimit.PackedFailuresBlock | internal/infrastructure/persistence/redis/safe.go:160-186 | within one window failures are counted one by one, so the counter reaches the threshold with failure number threshold |
| RateLimit.RedisCounters.CheckBlocked | internal/infrastructure/persistence/redis/safe.go:100-111 | blacklisted or under a live block |
| RateLimit.BlockingEffects | internal/infrastructure/persistence/redis/safe.go:100-186 | a block deletes the counter and refuses exactly its IP exactly until it runs out, or for ever if blacklisted; no other key or IP is touched |
| PlatformAuth.PlatformAuthService.CacheAdmin | internal/infrastructure/auth/platform_auth.go:323-336 | the entry lives five minutes |
| PlatformAuth.PlatformAuthService.DoLogin | internal/infrastructure/auth/platform_auth.go:48-81 | unknown, inactive and wrong password are refused; else token, last login and cache are written |
| PlatformAuth.PlatformAuthService.DoValidateSession | internal/infrastructure/auth/platform_auth.go:84-105 | an unexpired entry answers, else the repository, which is cached |
| PlatformAuth.PlatformAuthService.DoValidateToken | internal/infrastructure/auth/platform_auth.go:108-116 | unknown tokens are refused, known ones validate their session |
| PlatformAuth.PlatformAuthService.Logout | internal/infrastructure/auth/platform_auth.go:119-123 | exactly this token is gone |
| PlatformAuth.PlatformAuthService.DoCreateAdmin | internal/infrastructure/auth/platform_auth.go:158-208 | invalid roles and taken emails are refused; the new row is active with given or default permissions |
| PlatformAuth.PlatformAuthService.SuperAdminCount | internal/infrastructure/auth/platform_auth.go:351-363 | the number of active super admins |
| PlatformAuth.PlatformAuthService.DoUpdateAdmin | internal/infrastructure/auth/platform_auth.go:211-277 | the guards in order; the cache entry is evicted and only the given fields change |
| PlatformAuth.PlatformAuthService.DoDeleteAdmin | internal/infrastructure/auth/platform_auth.go:280-314 | the guards in order; the cache entry and the row are removed |
| PlatformAuth.CacheIsTransparent | internal/infrastructure/auth/platform_auth.go:84-116 | with a coherent cache a token validates exactly as the repository alone would answer, up to the last login time |
| PlatformAuth.RemovedAdminsLoseTheirTokens | internal/infrastructure/auth/platform_auth.go:211-314 | after a deactivation or deletion all of that admin's tokens stop validating at once |
| PlatformAuth.LoginExactly | internal/infrastructure/auth/platform_auth.go:48-81 | a login succeeds if and only if the found admin is stored and active and the password is right; it then adds exactly the drawn token, which validates as that admin; a refused one changes nothing |
| PlatformAuth.TokensComeFromLogins | internal/infrastructure/auth/platform_auth.go:48-123 | in every run a token that is not as at the start was drawn by a login with the right password of the admin it stands for, who was active at that moment |
| PlatformAuth.OnlySuperAdminsChangeAdmins | internal/interfaces/http/middleware/platform_admin.go:15-58 | a step that adds, changes or removes admins carries the token of an admin that is an active super admin in the repository |
| PlatformAuth.UpdateExactly | internal/infrastructure/auth/platform_auth.go:211-277 | which updates are refused; an accepted one writes only the given fields of only that admin and drops only its cache entry |
| PlatformAuth.DeleteExactly | internal/infrastructure/auth/platform_auth.go:280-314 | which deletions are refused; an accepted one removes exactly the row and its cache entry |
| PlatformAuth.CreateExactly | internal/infrastructure/auth/platform_auth.go:158-208 | which creations are refused; a new admin can log in at once, with the role's permissions if none are given |
| PlatformAuth.UpdateLosesLastSuperExactly | internal/infrastructure/auth/platform_auth.go:211-277 | an accepted update removes the last active super admin if and only if it gives the only one a status that is not active |
| PlatformAuth.DeleteKeepsASuper | internal/infrastructure/auth/platform_auth.go:280-314 | deleting never removes the last active super admin |
| PlatformAuth.ActorIsActiveSuper | internal/interfaces/http/middleware/platform_admin.go:15-58 | whoever passes the token and super admin checks is an active super admin in the repository at that moment |
| PlatformAuth.GuardedUpdateLosesLastSuperExactly | internal/infrastructure/auth/platform_auth.go:211-277 | a guarded update loses the last one if and only if that admin gives itself an unknown status |
| PlatformAuth.StepKeepsInv | internal/infrastructure/auth/platform_auth.go:48-314 | every step with known statuses keeps the cache coherent and some active super admin |
| PlatformAuth.SomeSuperAdminRemains | internal/infrastructure/auth/platform_auth.go:48-314 | in every sequential run with known statuses the cache agrees with the repository and an active super admin remains |
| PlatformAuth.EmailsStayUnique | internal/infrastructure/auth/platform_auth.go:158-277 | no two admins ever share an email, in any run |
| PlatformAuth.CheckBetweenEvictAndWriteGoesStale | internal/infrastructure/auth/platform_auth.go:262-270 | with a session check between eviction and write, any update leaves the cache coherent if and only if the admin was not active or the update changes nothing |
| PlatformAuth.DeactivatedAdminStillValidates | internal/infrastructure/auth/platform_auth.go:84-105 | an admin that such an update deactivates still validates if and only if it was active and the entry has not expired |

## Left out

- Storage and network failures: repositories answer "found" or "not found"; only the creation of usage records may fail. A failing refund is not modelled.
- Lost updates between a service's read and its write back of one row; each service call is one step, except where overlap is the subject (`Overdraft`, `AsyncBilling`, `CheckBetweenEvictAndWriteGoesStale`).
- Rounding of stored amounts to decimal(10,4), and int64 or float64 effects: integers and reals are unbounded and exact, except that a success rate over zero requests is infinite.
- Pages of 1000 rows: listings are whole tables, or an argument (`RunScheduledSettlement`).
- The decimal library: its division (16 places, half away from zero) is written out in `Decimals` from its known behaviour; its source is not part of this model.
- LoadBalancer.LoadBalancer.SelectByWeightedRoundRobin: the branch for a total weight of zero is proved dead and not written, and the unused provider argument is dropped.
- AsyncBilling.AsyncBillingQueue.ServeNext: covers the billing channel only; the token-update channel of the same loop and the batch processor, whose pending list nothing fills, are not modelled.
- RateLimit.RedisCounters.CheckDistributedLimit: answers of an unreachable Redis, and the local token bucket asked before it, are not modelled. Windows in the laws are positive.
- PlatformAuth.PlatformAuthService.DoLogin: bcrypt's verdict and the drawn token are arguments; the method writes one state where the source has separate locks.
- Connection counting per IP, whitelists, resetting and reading counters, and the cleanup of idle limiters: no property depends on them.
- Creating payment orders through providers, provider credentials, subscription orders and custom settlement cycles beyond what the stubs return.
- Recharge records, monthly usage bills, quota reports, bill numbers and periods, application reasons and review notes, audit logs, notifications and metrics.
- The map from provider to circuit breaker, and resetting all breakers at once: each breaker is independent.
- Permission lookups of platform admins beyond roles and statuses.
- HTTP handlers, the proxy, account failover, MCP tools, cryptography and configuration.
