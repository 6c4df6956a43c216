# Agent identity platform: a verified model

This project models the parts of the agent identity platform that decide who may act and how
often, and proves what every run of them keeps. The centre is the approval protocol, from end to
end: the agent graph with its human interrupts, the approval store, the policy enforcement point,
and the refund ledger that survives restarts. Around it stand the rate and budget limiters, the
template renderer, the provenance of identifiers, the revocation denylist, the audit trail, the
redaction of audit records, and the certificate restart loop.

`dafny verify dfyconfig.toml` checks everything. Module by module:

| file | what it models |
|---|---|
| `Values.dfy`, `Schema.dfy`, `Ascii.dfy`, `Clock.dfy` | JSON values, Python equality, coercion to declared types; white space and case; minutes and days |
| `Approvals.dfy` | the approval store, in memory and as a guarded UPDATE |
| `Decimal.dfy`, `Ledger.dfy` | record numbers, and the refund ledger with snapshot and restore |
| `Enforcement.dfy` | one tool call, from a token to an outcome |
| `Platform.dfy` | store, enforcement point and ledger under every interleaving of steps |
| `Graph.dfy` | the agent graph as a state machine |
| `System.dfy` | one agent run on the live platform, among everybody else's steps |
| `Identifiers.dfy`, `Decide.dfy`, `Provenance.dfy` | identifier tokens, `decide_tool`, and where identifiers come from over whole runs |
| `Limiter.dfy`, `FixedWindow.dfy` | the in-memory and the durable request limiter |
| `Render.dfy` | conditional blocks in templates |
| `Revocation.dfy` | the revocation cache in front of the authority |
| `AuditTrail.dfy`, `Redaction.dfy` | the bounded trail, and redaction |
| `CertRestart.dfy` | restarting before the served certificate expires |

## What the model assumes

- Generated approval ids are fresh, non-empty, and begin with `ap-`. Each run has a fresh thread.
- Clock readings do not go backwards, and each limiter, store or ledger call is one atomic step.
- Money amounts are whole cents, so rounding to cents changes nothing; there is no NaN or infinity.
- The policy verdict, the model's reply, the tool server's answers, the people's answers, and
  which services can be reached are arbitrary inputs of each step.
- Text conversions (`str`, `float`, `int`, JSON text) are arbitrary functions; `str` is the
  identity on strings. Whether a handler's answer reports an error is part of that answer. An
  observation is shown to the model as the JSON text of its arguments, its
  result and its tool name, and no identifier token straddles two of these.
- Lists and objects inside tool arguments are compared by their canonical text.
- Patterns are read over ASCII. A template is a sequence of tokens whose plain text never forms a
  marker, not even where the removal of a block joins two texts. Required argument names of a
  tool are distinct.
- One catalogue tool is idempotent, the refund tool, and its handler is the refund ledger; every
  other handler's answer is an input.
- A restart of the ledger reads back exactly the snapshot that was written.

## Where the code does less, or other, than it says

Each of these is a proved statement about the code as it is.

- An approval id is used as the idempotency key whatever policy decided. A call that policy allows
  outright, carrying an approval id, spends it; the approved refund is later answered with the
  other one and no money moves (`Platform.ApprovedRefundIsNeverPaid`). The refund under an id is
  the approved one exactly when the first call that moved money under it asked for it
  (`Platform.PaysTheApprovalIffFirstUseAsksForIt`).
- A later pass that asks for clarification keeps the previous pass's approval id
  (`Graph.LaterClarificationInheritsTheApproval`). Such a call goes through exactly when that
  approval was given and happens to be for the same call (`System.InheritedApprovalLetsThroughIff`).
  When it is for another call, the new one is held at every resume, whoever decides it
  (`System.MismatchIsHeldForEver`), and no approval of its own is ever created.
- An answer to a clarification is merged key by key, whatever was asked for, and the enforcement
  point takes the approval id from the arguments. So there is a third source of that id: besides
  the approval of the pass and the inherited one, what a person supplied under the name
  `approval_id` in that pass. These three are all there are (`System.IdOfEachCall`). A call of the
  third kind goes through exactly when the supplied id is of an approval given for the same call
  (`System.SuppliedApprovalLetsThroughIff`, `System.SuppliedApprovalIsUsed`); otherwise an approval
  is created that can never match, because it binds the supplied id too
  (`System.SuppliedIdSpoilsTheApproval`).
- Answers to a clarification are not coerced, but the enforcement point verifies coerced arguments.
  An approval can match exactly when coercion changes nothing (`System.OwnApprovalLetsThroughIff`);
  an amount given as text never does (`System.TextAmountIsHeldForEver`).
- The comment of `resolve_identifiers` says that an identifier was written in the task or returned by an
  earlier call. The code searches the whole observation, arguments included, so a model can launder
  an identifier through a free-text argument, whatever the handler returns
  (`Provenance.IdentifierLaunderedThroughADraft`). It can get a call on an identifier of its own
  exactly when the arguments of some earlier successful call named one that the world has not
  shown; a result that only repeats its call's arguments does not count as showing it
  (`Provenance.ModelCanIntroduceIff`).
- "The same call is never made again" holds of the call made just before
  (`Graph.NoCallTwiceRunning`), and of a whole run exactly when its third call is not its first
  (`Graph.NoCallTwiceIff`). The guard lets a repeated call through exactly when two calls were made
  and it is the first of them (`Graph.GuardMissesIff`, `Graph.RepeatAfterAnotherCallIsMade`).
- In fail-closed mode the test for an unavailable denylist comes before the first fetch, so a
  service that only asks `is_revoked` refuses everybody for ever
  (`Revocation.FailClosedNeverRecovers`).
- A caller's idempotency key shaped like a refund id loses a refund from the ledger
  (`Ledger.KeyShapedLikeAnIdLosesARefund`); money is conserved exactly when that does not happen
  (`Ledger.ConservedIffCollisionFree`). Restarts are transparent either way.
- A replayed refund is the one access that is not scoped by tenant: a caller that presents another
  tenant's key is answered with that tenant's refund (`Platform.ReplayCrossesTenants`). An answer
  stays within the caller's tenant exactly when the key is new or stands for a refund of that
  tenant (`Platform.ReplyStaysInTenantIff`).
- Deleting old counter rows changes no decision while no replica's clock is behind an earlier
  cleanup (`FixedWindow.CleanupIsInvisible`). On any clocks, it changes one exactly when the check
  is behind and the deletion took its caller's count from the limit or above to below it
  (`FixedWindow.CleanupChangesADecisionIff`); a clock that is half a minute behind gets an extra
  request through (`FixedWindow.CleanupHelpsAClockThatIsBehind`).
- A run completes at most three asks: a first pass that asks never has a second pass, because a
  clarification leaves `more` unset.
- The renderer checks for opening markers only, so any text without one passes unchanged, closing
  markers included (`Render.UnchangedIffNoOpeningMarker`).
- An empty event, tool or sub filter means "no filter" in memory and "the empty value" in SQL; the
  two backends agree exactly when there is none (`AuditTrail.BackendsAgreeIff`).
- The enforcement point does not record one audit line either way: a call without a token leaves
  none, and an answer of any tool that reports an error leaves two (`Enforcement.AuditTellsWhatRan`).

## Model

| member | source | states |
|---|---|---|
| `Values.PyEqIff` | app/approvals/store.py:141-146 | numbers are equal by value, whatever their type, and nothing else equals anything but itself |
| `Ascii.StripIff` | scripts/render.py:39-41 | stripping takes away all white space at both ends and nothing else |
| `Schema.CoerceArgs` | app/common/schema.py:31-39 | the loop keeps exactly the declared keys, each coerced |
| `Schema.CoerceIff` | app/common/schema.py:10-28 | for every value and declared type, policy is handed a value of that type, and which one, or null for a number that cannot be read |
| `Schema.CoercionIsIdempotent` | app/common/schema.py:10-39 | for every schema and arguments, coercing twice is coercing once, and only declared keys survive |
| `Schema.UndeclaredKeyIsDropped` | app/tools/enforcement.py:47-49 | adding an undeclared key such as `approval_id` does not change the coerced call |
| `Approvals.ApprovalStore.Create` | app/approvals/store.py:76-90 | adds one pending approval bound to its request and changes nothing else |
| `Approvals.ApprovalStore.Decide` | app/approvals/store.py:112-133 | decides a pending approval of the caller's tenant, never the requester's own, and otherwise changes nothing |
| `Approvals.ApprovalStore.Verify` | app/approvals/store.py:135-146 | true exactly for an approved record of that tenant with equal tool, arguments, user and agent |
| `Approvals.ApprovalStore.PendingQueue` | app/approvals/store.py:97-98 | every pending approval of the tenant, once, and nothing else, in the order of creation |
| `Approvals.DecisionLeavesTheQueue` | app/approvals/store.py:97-98 | deciding an approval takes it out of its queue and keeps the order of the rest |
| `Approvals.CreationJoinsTheQueue` | app/approvals/store.py:88-98 | a new approval comes last in its tenant's queue, and in no other |
| `Approvals.ApprovalStore.PendingCount` | app/approvals/store.py:100-107 | the number of pending approvals over every tenant |
| `Approvals.GuardedUpdateIsDecide` | app/approvals/store.py:260-278 | the lock-free guarded UPDATE has the effect and the answer of the locked in-memory decide |
| `Approvals.RunKeepsApprovals` | app/approvals/store.py:76-133 | over every run, requests never change, decided records are frozen, and a decided record names an approver who is not the requester |
| `Approvals.DecidedAtMostOnce` | app/approvals/store.py:149-154 | under any interleaving an approval is decided at most once, and never once it is decided |
| `Approvals.FirstEligibleDecides` | app/approvals/store.py:112-133 | over every run, a pending approval ends as the first decision that counts made it, field by field, and untouched when there is none |
| `Approvals.EndsAsDecided` | app/approvals/store.py:126-133 | it ends approved exactly when some step that said yes took effect, denied exactly when one that said no did, with that step's approver, note and time |
| `Approvals.RecordIsItsHistory` | app/approvals/store.py:76-133 | from the empty store, every record is its creation and the first decision after it that counts |
| `Approvals.PendingIsCreatedMinusDecided` | app/approvals/store.py:76-133 | the queue depth is creations minus successful decisions, over every run |
| `Approvals.QueueDepthIsSumOfTenantQueues` | app/approvals/store.py:97-107 | the platform's queue depth is the sum of the tenants' queues |
| `Decimal.NumberOfRefundId` | app/simulators/data.py:150-162 | the number printed into a refund id of any size is read back from its suffix |
| `Decimal.RefundIdShape` | app/simulators/payments.py:50 | a refund id is `r-` and at least four digits, more only when the number needs them |
| `Ledger.NextIdNumber` | app/simulators/data.py:150-162 | one past the highest numeric suffix |
| `Ledger.RefundLedger.IssueRefund` | app/simulators/payments.py:36-59 | a known key replays its refund; otherwise a valid order and amount issue one numbered refund; errors change nothing |
| `Ledger.AnswerIff` | app/simulators/payments.py:36-59 | every answer from the ask's own fields: a known key, else an order that is not the tenant's, else an amount that is not positive, else a refund of exactly what was asked |
| `Ledger.MovementsStayInTenants` | app/simulators/data.py:136-147 | in every run, restarts included, money moves only for orders of the tenant it moves for |
| `Ledger.RefundLedger.QuoteRefund` | app/simulators/payments.py:20-33 | already refunded is the sum of the ledger for the order, and what is left is never negative |
| `Ledger.QuotedOrdersAreOwn` | app/simulators/payments.py:20-24 | a quote knows exactly the orders of the tenant that asks |
| `Ledger.RefundLedger.Restore` | app/simulators/payments.py:74-82 | the state is the records re-keyed as issuing keys them, numbered past the highest |
| `Ledger.RefundLedger.Reopen` | app/simulators/payments.py:69-82 | snapshot and restore leave every reachable ledger as it was |
| `Ledger.RestoreOfSnapshotIsIdentity` | app/simulators/payments.py:69-82 | restoring a snapshot reproduces the entries, their order and the counter |
| `Ledger.RestartsAreTransparent` | app/simulators/payments.py:69-82 | with restarts anywhere, the same answers, the same movements of money and the same final state |
| `Ledger.IdsAreConsecutive` | app/simulators/payments.py:49-50 | the refunds of a run are numbered consecutively, across restarts |
| `Ledger.NumberedAreDistinct` | app/simulators/payments.py:49-50 | refunds numbered consecutively have pairwise distinct ids |
| `Ledger.AtMostOneRefundPerKey` | app/simulators/payments.py:40-41 | however often a key is presented, and across restarts, money moves at most once under it |
| `Ledger.MoneyIsConserved` | app/simulators/payments.py:36-59 | in any measure of refunds, the ledger holds what was moved, when no id collides with a key |
| `Ledger.ConservedIffCollisionFree` | app/simulators/payments.py:57-58 | the ledger never holds more than was moved, and holds all of it exactly when no keyless call took an id that was already a key |
| `Ledger.QuoteCountsEveryMovement` | app/simulators/payments.py:20-33 | a quote's already refunded amount is all the money moved for that order |
| `Ledger.KeyShapedLikeAnIdLosesARefund` | app/simulators/payments.py:57-59 | a concrete collision: two refunds moved, one held |
| `Enforcement.ToolEnforcer.Invoke` | app/tools/enforcement.py:67-221 | outcome, reply, ledger and audit lines of a call, branch by branch, with nothing else changed |
| `Enforcement.OutcomeIff` | app/tools/enforcement.py:67-221 | every outcome from the call's own fields: when it is denied, held, or an error, each both ways |
| `Enforcement.EachLineIff` | app/tools/enforcement.py:77-203 | which audit line each call leaves, both ways; each refusal has its own |
| `Enforcement.ReplyIff` | app/tools/enforcement.py:177-221 | what a call that ran is answered with, for the refund tool and for every other |
| `Enforcement.AskIff` | app/tools/enforcement.py:96-102 | the refund asked for is the order and amount of the coerced arguments, in the caller's tenant, under the id the call carries |
| `Enforcement.NothingMovesWithoutAuthority` | app/tools/enforcement.py:127-175 | the ledger changes only for a verified caller, a known tool, and an allow or a matching approval, and then the outcome is ok |
| `Enforcement.AuditTellsWhatRan` | app/tools/enforcement.py:166-221 | whether a handler ran, whether it succeeded, and whether its answer reports an error can be read off the audit lines |
| `Enforcement.ReportedErrorIsInTheTrail` | app/tools/enforcement.py:195-212 | for every tool but the refund, the second line is there exactly when the answer reports an error, and the call still counts as ok |
| `Platform.ApprovedActionsOnly` | app/tools/enforcement.py:140-175 | every interleaving keeps: each handler run held by policy is backed by an approval of exactly that run, by somebody else |
| `Platform.EveryHeldActionWasApproved` | app/tools/enforcement.py:140-175 | from the empty platform, that backing holds when the handler runs and at every later moment, and the steps before hold the request and then the yes of somebody else in the tenant |
| `Platform.HeldCallRunsOnlyAfterAYes` | app/tools/enforcement.py:140-175 | in every run, a call that needs approval runs only after a step that asked for exactly that call and a later step that said yes |
| `Platform.OneRefundPerApproval` | app/tools/enforcement.py:97-102 | however often an approval is resumed or retried, by whomever and across restarts, money moves at most once under its id |
| `Platform.FirstUseFixesTheRefund` | app/simulators/payments.py:40-41 | the first refund under an approval id is the one that id stands for ever after |
| `Platform.RefundsAreAccountedFor` | app/tools/enforcement.py:166-177 | each refund in the ledger is one that a logged handler run asked for, with that key |
| `Platform.RefundIsTheApprovedOne` | app/tools/enforcement.py:140-177 | if no call carrying the id was allowed outright, the refund under it has the approved order, amount and tenant |
| `Platform.PaysTheApprovalIffFirstUseAsksForIt` | app/tools/enforcement.py:101-102 | the refund under an id is the approved one exactly when the call that moved the money asked for it, which a call on approval always does |
| `Platform.AllowedCallSpendsTheApproval` | app/tools/enforcement.py:101-102 | in general, an allowed call carrying the id has the approved call answered with its own refund, and nothing moves |
| `Platform.ApprovedRefundIsNeverPaid` | app/tools/enforcement.py:101-102 | a concrete run in which an approved refund of 200 is answered with one of 10 |
| `Platform.MoneyStaysInTenants` | app/simulators/data.py:136-147 | over every interleaving, every refund issued is for an order of its own tenant |
| `Platform.CallsActWithinTheirTenant` | app/tools/enforcement.py:177-191 | a call moves money only for an order of its caller's tenant; a new key on any other order is answered that there is no such order |
| `Platform.ReplyStaysInTenantIff` | app/simulators/payments.py:40-41 | a refund in an answer is of the caller's tenant exactly when the key was new or stood for a refund of that tenant |
| `Platform.ApprovedReplyStaysInTenant` | app/simulators/data.py:136-143 | in every run, so is the answer to a call on approval, if no call carrying the id was allowed outright |
| `Platform.ReplayCrossesTenants` | app/simulators/payments.py:40-41 | a concrete run in which another tenant's key is answered with its refund |
| `Graph.StepWithinBudget` | app/agent/graph.py:75-253 | every node visit keeps the tallies of calls, plan visits, approvals and asks within their bounds |
| `Graph.EveryRunKeepsInv` | app/agent/graph.py:75-253 | budgets and the order of approvals hold in every run, however it is resumed |
| `Graph.HistoryTellsEverything` | app/agent/graph.py:75-253 | in every run the node, status, result, tool, arguments, observations and open questions are what an observer reads off the events |
| `Graph.MergedAt` | app/agent/graph.py:194-196 | an answer overrides an argument exactly when it is not blank |
| `Graph.FinishedRunTellsHow` | app/agent/graph.py:75-253 | the status of every finished run, from its last event alone |
| `Graph.NothingAfterTheEnd` | app/agent/graph.py:217-253 | in every run no event follows one that ends it |
| `Graph.DenialEndsTheRun` | app/agent/graph.py:177-178 | in every run a person's denial is the last event, and the run is over and denied |
| `Graph.ApprovalResumesTheCall` | app/agent/graph.py:177-178 | a person's approval leads back to the call |
| `Graph.BudgetsHold` | app/agent/graph.py:44-52 | at most three successful calls, three plan visits, three completed asks, and no more approvals than plan visits |
| `Graph.ThreeAsksHappen` | app/agent/graph.py:180-216 | the bound on asks is met by a concrete run |
| `Graph.CallsCarryTheirOwnApproval` | app/agent/graph.py:105-165 | at each call, the graph's state holds the approval created in that pass for exactly its tool and arguments, or the one a later clarification inherited, or none; none is created while one stands |
| `Graph.LaterClarificationInheritsTheApproval` | app/agent/graph.py:84-91 | a concrete run whose second call carries the first call's approval |
| `Graph.InternalStepsDecrease` | app/agent/graph.py:218-253 | between interrupts, remaining steps and then node rank decrease at every visit |
| `Graph.AlwaysPauses` | app/agent/graph.py:218-253 | whatever the services answer, an interrupt or the end is reached within fifteen node visits |
| `Graph.Invoke` | app/agent/graph.py:293-309 | the invocation loop ends, paused, in the state its inputs lead to |
| `Graph.HoldsAreUnbounded` | app/agent/graph.py:218-225 | a hold can be resumed any number of times, always waiting on the same approval and creating none |
| `Graph.NoCallTwiceRunning` | app/agent/graph.py:117-135 | no successful call of a run is the one made just before it |
| `Graph.NoCallTwiceIff` | app/agent/graph.py:117-135 | for every run, no call is made twice exactly when the third, if there is one, is not the first |
| `Graph.GuardMissesIff` | app/agent/graph.py:117-135 | in every run, the guard lets through a call already made exactly when two were made and it is the first |
| `Graph.RepeatAfterAnotherCallIsMade` | app/agent/graph.py:120-135 | a concrete run that makes the same call twice, with another in between |
| `System.RunsProject` | app/agent/graph.py:180-253 | whatever the platform and everybody else do, an agent run is a run of the graph |
| `System.EveryRunKeepsInv` | app/agent/live.py:74-115 | one agent run among everybody's steps keeps the graph's and the platform's invariants, and its approvals are recorded for what it asked |
| `System.ThreeMovementsAtMost` | app/agent/graph.py:49-52 | one run moves money at most three times, even when answers are lost |
| `System.IdOfEachCall` | app/tools/enforcement.py:101-102 | in every driven run, the id read in a call is that of the pass's approval, else the inherited one, else what a person supplied under that name, else none |
| `System.GoesThroughIff` | app/tools/enforcement.py:140-175 | a call goes through exactly when the id it carries is of an approval given for its identity, tool and coerced arguments |
| `System.PolicyDenialEndsTheRun` | app/tools/enforcement.py:127-138 | a call that policy denies, or of an unknown tool, ends the run as denied; nothing moves and nothing is asked of anybody |
| `System.HoldAsksForApproval` | app/agent/graph.py:218-225 | a held call changes nothing on the platform, and the run waits on the id it has or asks for one |
| `System.HandlerDecidesTheStep` | app/agent/graph.py:136-158 | a handler that raises ends the run with an error, and one that answers is a step that the run has seen |
| `System.LostAnswerEndsTheRun` | app/agent/graph.py:136-141 | when an answer is lost the service has acted all the same, but the run ends with an error and has seen nothing of it |
| `System.UnreachableStoreHolds` | app/tools/enforcement.py:140-162 | a store that cannot be reached approves nothing |
| `System.CreationBindsTheCaller` | app/agent/live.py:102-115 | an approval is asked for in the name of the person, agent and tenant behind the run, for the held tool and arguments |
| `System.OwnApprovalLetsThroughIff` | app/tools/enforcement.py:96-148 | a call goes through exactly when its pass's approval is given, the identity is the same, and coercion leaves the arguments equal |
| `System.InheritedApprovalLetsThroughIff` | app/agent/graph.py:84-91 | a call with an inherited id goes through exactly when that approval was given for the same call; otherwise it waits on that id again |
| `System.SuppliedApprovalLetsThroughIff` | app/agent/graph.py:196 | with no approval of the pass and none inherited, a call goes through exactly when a person supplied the id of one given for the same call; otherwise one is created |
| `System.SuppliedIdSpoilsTheApproval` | app/agent/live.py:79-81 | an approval created for arguments that hold a supplied id lets no call through, in any continuation |
| `System.SuppliedApprovalIsUsed` | app/agent/graph.py:196 | a concrete driven run that creates no approval and goes through on one that a person named |
| `System.ApprovedCallGoesThrough` | app/approvals/store.py:135-146 | from the hold on, through resumes, holds and everybody's steps in any order: once another user of the tenant has approved, the next resume of a call with coerced arguments goes through |
| `System.ChosenCallGoesThroughOnceApproved` | app/agent/llm.py:318-351 | end to end, from the empty platform, this covers every call that the model chose outright |
| `System.DeniedIsHeldForEver` | app/approvals/store.py:135-146 | a call that waits on an approval which was denied, before or since, is held at every resume |
| `System.NumericAnswerIsUnchanged` | app/common/schema.py:10-39 | an amount answered as a number is left as it is by coercion |
| `System.MismatchIsHeldForEver` | app/approvals/store.py:135-146 | a call that waits on an approval for another call is held at every resume, whatever is decided |
| `System.TextAmountIsHeldForEver` | app/agent/graph.py:194-204 | an amount answered as text is held at every resume, whoever approves it |
| `Identifiers.FindAll` | app/agent/llm.py:96-99 | scanning and resuming after each match finds every identifier token of a text |
| `Identifiers.TokensIff` | app/agent/llm.py:96-99 | the tokens of a text are exactly the identifiers in it that no letter, digit or underscore touches |
| `Identifiers.FirstTokenIff` | app/agent/llm.py:111-114 | the search finds the leftmost token, and none exactly when there is none |
| `Decide.SeenIdentifiers` | app/agent/llm.py:133-143 | the loop collects the tokens of the task and of every observation |
| `Decide.SeenIff` | app/agent/llm.py:133-143 | what a run has been shown is exactly what the task, the arguments, the results and the tools named |
| `Decide.FillGaps` | app/agent/llm.py:121-130 | only gaps in declared arguments are filled, from the task, before coercion |
| `Decide.TaskFillsItsGap` | app/agent/llm.py:102-126 | the task's first identifier fills the gap in the argument of its kind, so that it is not asked for |
| `Decide.TaskFillsNoOther` | app/agent/llm.py:111-126 | it fills no identifier argument of another kind |
| `Decide.TaskFillsTheAmount` | app/agent/llm.py:115-126 | an amount left out, or zero, is the task's first free-standing number |
| `Decide.ResolveIdentifiers` | app/agent/guardrails.py:86-117 | an unseen identifier gives way to the task's or is removed, and is reported; everything else stays |
| `Decide.NamesAnIdentifierIff` | app/agent/guardrails.py:75-83 | the identifier arguments are exactly those whose names end in `_id` |
| `Decide.UnseenGivesWay` | app/agent/guardrails.py:106-117 | an unseen identifier becomes the task's own when the task's first is of its kind, and is taken out otherwise |
| `Decide.GivenIsKept` | app/agent/guardrails.py:106-109 | a seen identifier, and every other argument the model gave, is kept, coerced |
| `Decide.DecideTool` | app/agent/llm.py:246-360 | the decision, branch by branch, for every reply |
| `Decide.DecisionIff` | app/agent/llm.py:246-360 | every decision from the reply: when it is refused, an error, a question and about what, or a call, each both ways |
| `Decide.IdentifiersWereSeen` | app/agent/guardrails.py:86-117 | whatever the model proposes, each identifier it keeps was shown to it |
| `Decide.DecisionsAreCoerced` | app/agent/llm.py:121-130 | a decision's arguments are a fixpoint of coercion |
| `Provenance.RunsAreGrounded` | app/agent/guardrails.py:86-117 | over whole runs, each required identifier of each call is in the task, in an earlier observation, or supplied by a person |
| `Provenance.CleanRunsStayClean` | app/agent/guardrails.py:91-96 | while no call's arguments name an identifier the world has not shown, none originates with the model |
| `Provenance.ModelCanIntroduceIff` | app/agent/llm.py:140-143 | in every run, the model can have its own identifier called exactly when some earlier successful call's arguments named one that the world has not shown |
| `Provenance.IdentifierLaunderedThroughADraft` | app/simulators/tickets.py:35-42 | a driven run that does so through the body of a draft, whatever the handler returns |
| `Provenance.UndeclaredArgsWereSupplied` | app/agent/graph.py:194-196 | over whole runs, what a call's arguments hold under a key no tool declares is what a person supplied under it in that pass |
| `Provenance.ChosenCallsAreCoerced` | app/agent/llm.py:318-351 | over whole runs, the arguments of a call chosen outright stay a fixpoint of coercion |
| `Limiter.RequestLimiter.Check` | app/gateway/limits.py:63-90 | decision and new window of the caller; no other caller's window changes |
| `Limiter.DecisionIff` | app/gateway/limits.py:63-90 | every decision from the history: refused exactly when rpm requests were accepted in the last sixty seconds, over budget exactly when the day's charges add up to it |
| `Limiter.RequestLimiter.Charge` | app/gateway/limits.py:92-99 | the caller's day and spend after a charge; no other caller's changes |
| `Limiter.RequestLimiter.UsedToday` | app/gateway/limits.py:101-105 | today's spend of the caller |
| `Clock.PeriodsHoldTheirReadings` | app/gateway/limits.py:81-82 | a reading lies in its minute of sixty seconds and its day of twenty-four hours |
| `Limiter.AtMostRpmPerMinute` | app/gateway/limits.py:67-77 | for every call sequence, at most rpm requests pass in any closed interval of sixty seconds |
| `Limiter.WaitingAsToldPasses` | app/gateway/limits.py:71-76 | after any checks, retry_after lies in 1..61, and a check that comes that long after it passes, however many were refused in between |
| `Limiter.OneSecondLessIsRefused` | app/gateway/limits.py:71-76 | retry_after is the shortest wait in whole seconds: a check that comes a second earlier, or sooner, is refused |
| `Limiter.PassesIffOldestExpires` | app/gateway/limits.py:67-77 | after a refusal, the next check passes exactly when it comes more than sixty seconds after the oldest request in the window |
| `Limiter.CompactCounterIsExact` | app/gateway/limits.py:79-105 | in every run the single pair equals the full ledger's total for the day |
| `Limiter.DailySpendIsBounded` | app/gateway/limits.py:79-99 | with k requests in flight and charges of at most c, no day's spend exceeds tpd - 1 + k * c |
| `FixedWindow.DurableLimiter.CheckRequest` | app/gateway/limits.py:139-170 | decision and rows after an atomic upsert |
| `FixedWindow.DecisionIff` | app/gateway/limits.py:139-170 | on forward clocks, every decision from the history: the caller's checks in the minute, and charges of the day |
| `FixedWindow.WaitingAsToldReachesTheNextMinute` | app/gateway/limits.py:153-157 | retry_after lies in 1..61 and leads just past the start of the next minute, a second less not |
| `FixedWindow.DurableLimiter.ChargeTokens` | app/gateway/limits.py:172-184 | rows after a charge and its cleanup |
| `FixedWindow.CleanupIsInvisible` | app/gateway/limits.py:182-184 | deleting rows changes no decision while no call is behind an earlier cleanup |
| `FixedWindow.CleanupChangesADecisionIff` | app/gateway/limits.py:182-184 | after any run on any clocks, deletion changes a decision exactly when the check is behind the cut, the kept count is at the limit or above, and the cleaned one below |
| `FixedWindow.CleanupNeverChangesADecision` | app/gateway/limits.py:182-184 | hence on forward clocks it never does |
| `FixedWindow.CleanupHelpsAClockThatIsBehind` | app/gateway/limits.py:182-184 | a concrete run with a clock behind, in which it does |
| `FixedWindow.AtMostTwiceRpmPerSixtySeconds` | app/gateway/limits.py:139-157 | at most rpm requests pass in a minute, and twice that in any sixty seconds |
| `Render.ResolveConditionals` | scripts/render.py:44-61 | the loop ends, and what it accepts holds no opening marker |
| `Render.RewritingIsMeaning` | scripts/render.py:28-61 | for every well-nested template, innermost-first rewriting gives the outside-in meaning |
| `Render.TruthyIff` | scripts/render.py:36-41 | a variable is true exactly when it says one of four words, in any case, between white space |
| `Render.StepIsReduction` | scripts/render.py:30-54 | one turn of the loop resolves the leftmost innermost block of the tree |
| `Render.OutputDependsOnReachedNames` | scripts/render.py:19-21 | variables named only inside dropped blocks do not influence the output |
| `Render.UnchangedIffNoOpeningMarker` | scripts/render.py:55-61 | a text is returned as it is exactly when it holds no opening marker, so closing markers alone are accepted |
| `Render.MalformedMarkerIsRejected` | scripts/render.py:30-35 | a template with a malformed marker that names a kind is rejected, wherever the marker stands |
| `Render.BlockClosesAtTheFirst` | scripts/render.py:30-54 | a block closes at the first closing marker of its kind, over any body without blocks, other markers and all; the body takes its place, or nothing |
| `Revocation.Denylist.RevokedIds` | app/common/revocation.py:79-101 | the ids and the cache after a lookup, for a local source, no denylist, or a fetch that works or fails |
| `Revocation.Denylist.IsRevoked` | app/common/revocation.py:104-110 | the answer, with the fail-closed test first |
| `Revocation.OtherModesNeedNoCache` | app/common/revocation.py:88-91 | the authority is right about every id at every moment, and a service without a denylist refuses nobody |
| `Revocation.LooksIffDue` | app/common/revocation.py:92-101 | the authority is asked at most once in every TTL, even while it cannot be reached, and no later |
| `Revocation.AuthorityIsTheLastChange` | app/api/revocations.py:32-48 | the authority's set is the ids revoked and not restored since |
| `Revocation.AnswersComeFromTheLastFetch` | app/common/revocation.py:79-101 | whatever fails, every answer is the authority's set at the last successful fetch |
| `Revocation.RevocationIsEffectiveWithinTtl` | app/common/revocation.py:20-22 | if fetches succeed and an id was not touched for TTL seconds, the answer is the authority's |
| `Revocation.StaleUntilTtl` | app/common/revocation.py:92-94 | up to TTL seconds a fresh revocation is not seen |
| `Revocation.FailClosedNeverRecovers` | app/common/revocation.py:104-110 | in fail-closed mode no run of queries leaves the unavailable state, and all refuse |
| `Revocation.RefusesEverybodyIffUnavailable` | app/common/revocation.py:59-61 | queries refuse everybody exactly while unavailable, and one successful direct lookup ends it |
| `AuditTrail.AuditStore.Append` | app/audit/store.py:91-93 | the trail stays the newest maxlen of everything appended |
| `AuditTrail.AuditStore.Query` | app/audit/store.py:95-109 | the first limit matches among the newest maxlen appends |
| `AuditTrail.MatchingIff` | app/audit/store.py:64-81 | the matches are the records that meet every filter given, so no record of another tenant, and all of them |
| `AuditTrail.BackendsAgreeIff` | app/audit/store.py:64-81 | the two filters agree on every record exactly when no event, tool or sub filter is empty |
| `AuditTrail.BoundedTrailRefinesTable` | app/audit/store.py:143-169 | the trail's answer is the beginning of the table's, and all of it when nothing was dropped or the limit is filled |
| `Redaction.TextRedactionIsIdempotent` | sdk/agentnhi/audit.py:73-76 | redacted text matches neither credential pattern anywhere, and redacting again changes nothing |
| `Redaction.TextIsKeptIff` | sdk/agentnhi/audit.py:73-76 | text changes exactly when it holds a credential |
| `Redaction.FirstJwtIsReplaced` | sdk/agentnhi/audit.py:73-76 | the first token is replaced by its mark, what is before it stays, and what is after it is treated alike |
| `Redaction.FirstBearerIsReplaced` | sdk/agentnhi/audit.py:73-76 | the same for the first bearer credential |
| `Redaction.BearerJwtIsMarkedAsJwt` | sdk/agentnhi/audit.py:73-76 | a bearer token that is a JWT is marked as a JWT |
| `Redaction.SecretKeyIff` | sdk/agentnhi/audit.py:26-30 | a key is secret exactly when it holds one of the words somewhere, in any case |
| `Redaction.PiiKeyIff` | sdk/agentnhi/audit.py:64-70 | a key names personal data exactly when it is one of the names, but for case and white space around it |
| `Redaction.FieldIsMarked` | sdk/agentnhi/audit.py:79-85 | a secret key is marked so, before personal data, and nothing of its value is left |
| `Redaction.RedactionIsSafeAndIdempotent` | sdk/agentnhi/audit.py:79-92 | for every nested value: markers under secret and personal keys at any depth, the same shape and keys, and idempotence |
| `CertRestart.RestartBeforeExpiry` | app/common/server.py:69-91 | the loop ends; it exits within one oversleep of the margin, before expiry when that is shorter than the margin, after a bounded number of sleeps |

## Left out

- Graph: the `reason` and `refused_tool` texts, and the shaping of the final answer.
- HTTP, mTLS, SPIFFE, Keycloak and token verification: a caller is verified or rejected by input, and a verified one carries its user, workload and tenant.
- The Rego policy: the verdict is an arbitrary input of each call.
- LangGraph, checkpointing and database internals: updates merge field by field, and each SQL statement is atomic.
- Model prompts, JSON parsing and the provider call: the model's reply is arbitrary.
- Writing the sandbox snapshot to disk, and a crash between a refund and that write.
- Substitution of `${VAR}` after the conditional blocks, and what a mis-nested template means beyond being accepted or refused.
- `check_task`, ticket drafts, and the simulators that only read: easier twins of what is here.
- Refund totals staying below an order's total: the code does not enforce it.
- JSON round trips of audit records through the database, and records whose fields are not text.
- Web UI, API routing, metrics, telemetry and deployment scripts.
