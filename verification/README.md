# Check deposit: deposits, ledger, returns and settlement

A Dafny model of the service that takes mobile check deposits: the deposit flow, the operator's
review, the double-entry ledger, bank returns, daily settlement with its calendar, and the event
broadcaster. `dafny verify dfyconfig.toml` checks the whole project.

## How it is built

There is no transaction around a handler. The only atomic actions are single statements: the
`UPDATE ... WHERE state = from` of a transfer, the two-row ledger insert under its CHECK, UNIQUE and
foreign-key constraints, and single event inserts. So the model has two forms of the same handlers.

- **A concurrent step system.** `States`, `Tables`, `Ledger` and `Operations` give the database and
  the calls on it; `Handlers` gives the control flow of `ProcessDeposit` (with `CreateDeposit`),
  `PostAction`, `ProcessReturn` and `AcknowledgeBatch` as processes with a program counter and local
  variables; `System` interleaves any number of them. Any call may be refused, or take effect and lose
  its reply; a process that gets no further turn has stopped. Vendor answers, clocks, fees and listings
  are arbitrary. `Invariant` is the inductive invariant; `Accounting`, `History`, `Gate`, `Returns`,
  `Acknowledgement`, `Races` and `BatchLinks` are what it gives for every reachable state and every run, and
  `Scenarios` and `FundedRuns` have the concrete runs in which something goes wrong.
- **Objects and methods.** `Store.Database` has the tables as fields and the statements as methods;
  `Flow`, `Reviews`, `Completion`, `Settlement.Engine` and `SettlementHandler` run the handlers
  statement by statement on it, and say what becomes of the tables when nothing fails and what may
  change when something does. A ghost process in the database records which call comes next; a method
  may only make that call, so each handler method makes exactly the calls of its process, and
  `Refinement` turns every execution into a run of the step system. All that holds of every reachable
  state therefore holds at every call inside these methods, and `Outcomes` uses this to say how the
  handlers end on a database that the service itself has brought about.

`Funding` is the rule engine, `Calendar` and `Cutoff` the business days and the 18:30 cutoff,
`Listings`, `Subsequences` and `Grouping` the ordered queries and the grouping of settlement, `Sse` the
broadcaster, both as a step system and as an object. `Decimals` and `Stamps` say how numbers, days and
settlement files are written. `Submission` says what the bank is sent, and
`SharedNames` what becomes of correspondents with similar identifiers.

Money is in whole cents; transfers and batches are named by their position in their table, which stands
for the fresh UUID; instants are seconds.

## What the code does not do

Each of these is shown by a lemma with a concrete run, or as an exact condition.

- A return that stops after its reversal is never completed by a retry
  (`Returns.HalfReturnsNeverComplete`), and a fee of zero, or a missing fee account, strands every return
  half-way without any fault (`Returns.UnpayableFeeLeavesHalfReturn`, the run
  `Scenarios.ZeroFeeLeavesHalfReturn`). With a fee that can be posted, and still without any fault, a return
  is lost when an acknowledgement completes the row between the return's reading and its last update: the
  reversal and the fee are posted, the COLLECTIONS check does not run, and the row stays Completed for good
  (`Races.LastUpdateExactly`, the run `FundedRuns.AcknowledgementOvertakesReturn`). `Outcomes.ReturnSettles`
  is the exact condition for a return that runs alone, `Races.ReturnsUnlessOvertaken` the exact condition in
  every interleaving. docs/architecture.md:146 says that returns always complete, and docs/prd.md:341 that
  all four return entries are posted in one transaction; the code posts two pairs in two transactions.
- An operator who read a row in Validating can approve it once it is in Analyzing, before the funding
  engine has decided; a deposit on a COLLECTIONS account can then be credited
  (`Scenarios.StaleApprovalCreditsIneligible`). `Gate.GateHoldsExactly` is the exact condition under
  interleaving; with handlers one at a time it cannot happen (`Gate.SerialGate`).
- The audit event of a transition is a separate insert after the update, so it can be late, or missing
  (the run `Scenarios.AuditEventGoesMissing`); docs/architecture.md:139 calls it atomic. None is missing
  exactly when no write of one was refused and no reply to a won update was lost
  (`History.NothingLostExactly`), and a missing one is missing for good (`History.LostForever`). A handler
  that stops between the two still owes its event.
- The flow and an engine that is given the vendor result do not approve the same deposits: the flow is more
  lenient on MICR data without a routing number under an IQA status that is neither pass nor fail, and
  stricter on failed images and the vendor's duplicates (`Flow.FlowAgreesWithEngine`).
- The settlement listing does not leave out rows that are in a batch already, so a transfer can be sent to
  the bank twice: exactly when neither an acknowledgement nor a return has moved it on before the next
  trigger lists (`Acknowledgement.ListedAgainExactly`, `SettlementHandler.UnacknowledgedAreSentAgain`, the
  run `FundedRuns.ListedTwice`). The later trigger also takes the row away from its first batch, whose
  acknowledgement then passes over a check that was in its file (`BatchLinks.CompletesItsFileExactly`).
- Two correspondents that agree in eight characters share a settlement file, and the later one
  overwrites it (`Settlement.FilesReadBackExactly`, the outcome `SharedNames.SharedFileIsOverwritten`). The
  bank is then sent the later file twice, and the earlier correspondent's deposits are completed although
  they were never sent (`Submission.CompletedWereSentExactly`, the run
  `SharedNames.CompletedWithoutBeingSent`).
- On a day that is no business day, the cutoff of the day also lets in deposits that belong to a later
  day (`Cutoff.CutoffDecidesOnBusinessDays`).
- Two overlapping broadcasts can reach any client that the first has still to serve in the other order
  (`Sse.OverlappingCastsReorder`); the listener makes them one at a time.

The table has nine transitions, as docs/architecture.md:139 says; docs/decision_log.md:33 counts seven.

## Model

| member | source | states |
|---|---|---|
| `Accounting.StateAndEntries` | internal/orchestrator/flow.go:187-217 | In every reachable state, with faults anywhere: no entries before Approved or in Rejected; Approved has at most the credit; FundsPosted and Completed have the credit, the fee only with the reversal; Returned has all three. |
| `Accounting.EntriesPerTransfer` | db/migrations/004_ledger_entries.sql:15 | However many returns are notified and whatever fee account each reads, a transfer has at most one pair per entry type and six entries; a Returned one exactly six, and its investor is left paying the fee. |
| `Accounting.ExactBalances` | internal/store/ledger.go:68-82 | In every reachable state, mid-handler included, for every account in whatever roles: GetBalance is the sum over transfers of what they credited to it less reversals and fees, less the unreversed credits it is the omnibus account of, plus all fees posted to it. |
| `Accounting.BalancesByRole` | internal/store/ledger.go:68-82 | What that says of an account with one role: an investor balance is credits minus reversals minus fees, an omnibus balance is minus its unreversed credits, a fee account holds exactly the fees posted to it, however many fee accounts there were. |
| `Accounting.LedgerIsBalanced` | internal/store/ledger.go:127-140 | In every reachable state the ledger is a list of whole balanced pairs and reconciles to zero. |
| `Accounting.LedgerOnlyGrows` | internal/store/ledger.go:30-61 | Any step leaves the old ledger as a prefix, so a failed insert leaves nothing behind. |
| `Ledger.ReconcileSumsBalances` | internal/store/ledger.go:127-140 | Reconcile is the sum of GetBalance over any listing of the accounts that occur. |
| `Ledger.PairsReconcile` | internal/ledger/service.go:49-80 | Any list of posted pairs sums to zero. |
| `Ledger.CommittedPairIsNew` | db/migrations/004_ledger_entries.sql:13-15 | A pair that commits has a valid amount, a known row and known accounts, and shares neither its debit nor its credit account with an earlier pair of its transfer and type. |
| `Ledger.NewPairCommits` | internal/store/ledger.go:30-61 | The converse: a pair of valid amount, known row and accounts commits when no earlier pair of its transfer and type has its debit or its credit account. |
| `Decimals.ValidAmountsHaveTwelveDigits` | db/migrations/003_transfers.sql:8 | An amount passes exactly when it is positive and its cents, written out, take no more than twelve digits. |
| `Decimals.BatchTotalsHaveFourteenDigits` | db/migrations/007_settlement_batches.sql:8-9 | A batch fits exactly when its count is a 32-bit integer and its total takes no more than fourteen digits. |
| `Invariant.ApplyKeepsInv` | internal/store/transfers.go:186-199 | Every step of every process, with any answer and any fault, keeps the invariant that ties rows, pairs, captured details and program points together, and moves rows and records only forward. |
| `Invariant.RunKeepsInv` | internal/store/transfers.go:186-199 | The invariant holds after every run. |
| `Invariant.CallsAreSafe` | internal/orchestrator/flow.go:49-217 | At every program point the call a handler is about to make is an edge of the table with the pairs the new state needs already posted, or a posting that its row allows. |
| `Invariant.ReplyKeepsProc` | internal/store/transfers.go:186-199 | The reply of a call establishes the assertion of the next program point. |
| `Invariant.ProcStays` | internal/store/transfers.go:186-199 | No step of another process invalidates the assertion of a program point. |
| `States.EdgesAreTheTable` | internal/orchestrator/states.go:22-56 | The search of the transition table finds exactly the nine edges, named as a relation. |
| `States.PathsAreShort` | internal/orchestrator/states.go:22-29 | A path of the table has at most six changes. |
| `History.HistoriesArePaths` | internal/orchestrator/states.go:22-29 | In every run each transfer goes along a path of the table from Requested to its present state, of at most six changes, although returns and settlement skip the table check. |
| `History.EdgesAreWonOnce` | internal/store/transfers.go:186-199 | The optimistic lock has one winner: no two won updates of a transfer leave the same state or enter the same state. |
| `History.TerminalStatesStay` | internal/orchestrator/states.go:22-29 | Rejected and Returned are never left, whatever runs afterwards. |
| `History.NothingLostExactly` | internal/orchestrator/events.go:18-24 | In every run, whatever fails: events told or owed are true and told once; and no event is lost exactly when no write of a state change was refused and no reply to a won update was lost. |
| `History.LostForever` | internal/orchestrator/events.go:18-24 | An event that is lost stays lost in every continuation. |
| `History.LostReplyLosesEvent` | internal/orchestrator/transition.go:35-41 | From any reachable state: if the reply to a winning update is lost, the row has moved and its event is lost for good. |
| `History.RefusedWriteLosesEvent` | internal/orchestrator/transition.go:39-41 | From any reachable state: if the write of a state change is refused, its event is lost for good. |
| `Scenarios.AuditEventGoesMissing` | internal/orchestrator/transition.go:35-41 | A concrete run of a deposit: the reply to its move to Validating is lost, and nothing ever tells of the move. |
| `History.TrailTellsHistory` | internal/orchestrator/events.go:18-24 | In every run: an update was won exactly when its event is written, owed by one process, or lost, only one of these and once; with no lost write the last case does not occur. |
| `History.EventsRebuildHistory` | internal/orchestrator/transition.go:39-45 | Once nothing is owed for a transfer: its written events, ordered by rank, are the edges of its history and end in its present state, exactly when none of them is lost. |
| `Gate.CreditedWereEligibleOrStale` | cmd/api/handlers/operator.go:107-143 | In every interleaving a transfer with a ledger entry was ACTIVE, of an eligible type and within its limit when captured, or was approved by an operator who had read it in Validating. |
| `Gate.GateHoldsExactly` | cmd/api/handlers/operator.go:107-143 | In every interleaving, with faults anywhere, the gate holds for a transfer (once Approved, it was eligible as captured) exactly when a stale approval of it, won on a row read in Validating, if there was one, was of an eligible transfer. |
| `Gate.SerialGate` | cmd/api/handlers/deposit.go:171-183 | With handlers one at a time and faults anywhere, every transfer with a ledger entry was eligible as captured; a deposit made on a COLLECTIONS account is never credited. |
| `Scenarios.StaleApprovalCreditsIneligible` | cmd/api/handlers/operator.go:107-143 | A concrete interleaving in which an operator who read Validating credits a deposit on a COLLECTIONS account: the gate does not hold when handlers overlap. |
| `Returns.SecondPairIsRejected` | db/migrations/004_ledger_entries.sql:15 | A second reversal or fee for a transfer never commits, even with another fee account or amount. |
| `Returns.ReturnPostings` | internal/returns/handler.go:139-158 | In every reachable state: the reversal of a posted transfer goes through exactly when there is none, and the fee after it exactly when the fee is a valid amount and its account exists. |
| `Returns.CreditPosting` | internal/orchestrator/flow.go:196-208 | In every reachable state the provisional credit of a transfer goes through exactly when it has none yet. |
| `Returns.FirstCredit` | internal/orchestrator/flow.go:196-208 | In every reachable state the credit of a row inserted now, of valid amount and known accounts, goes through. |
| `Returns.HalfReturnsNeverComplete` | internal/returns/handler.go:145-163 | A transfer whose reversal is posted and whose finishing process has stopped is never Returned in any continuation. |
| `Returns.InvalidFeeStrands` | internal/returns/handler.go:152-158 | A return whose fee fails the amount check (zero, say) or whose fee account does not exist is turned away at the fee and never completed by anything. |
| `Returns.UnpayableFeeLeavesHalfReturn` | internal/returns/handler.go:139-158 | From any reachable state with a posted, unreversed transfer: a return with such fee terms posts the reversal and no fee, without any fault, and is never completed. |
| `Scenarios.ZeroFeeLeavesHalfReturn` | internal/returns/handler.go:139-158 | The concrete run: a funded deposit, a return with fee zero, a reversal without its fee, and no continuation in which the row is Returned. |
| `Races.LastUpdateExactly` | internal/returns/handler.go:160-163 | From any reachable state, whatever comes after: the last update of a return that no fault meets makes the row Returned exactly when the row is still in the state that was read; otherwise it was read FundsPosted and has been completed, the return ends with the lock error and without looking at the balance, and the row stays Completed with reversal and fee posted. |
| `Races.ReturnsUnlessOvertaken` | internal/returns/handler.go:98-163 | A return none of whose calls fails, interleaved with anything: it moves the row to Returned exactly when it read FundsPosted or Completed, found no reversal, the fee can be posted, and no acknowledgement has completed the row since it was read. |
| `FundedRuns.AcknowledgementOvertakesReturn` | internal/settlement/engine.go:245-246 | The concrete run, without a fault: a funded deposit, a return about to update, its batch acknowledged first; the row is Completed with the reversal and the fee, in every continuation. |
| `Acknowledgement.AcknowledgedRowsAreSettled` | internal/settlement/engine.go:243-273 | Racing returns, other acknowledgements and triggers: rows whose turn came are Completed or Returned unless the update failed for want of the database; rows not reached are still at least FundsPosted; at the end all were reached. |
| `Acknowledgement.NoneDropsOut` | internal/store/settlement.go:29-36 | Whatever was interrupted, a transfer once FundsPosted before a cutoff is later Completed or Returned, or in every listing for that or a later cutoff. |
| `Acknowledgement.ListedAgainExactly` | internal/store/settlement.go:30-36 | A transfer that was in one listing is in a later one, so in a second file, exactly when no acknowledgement and no return has moved it on in between, whatever became of its first batch. |
| `FundedRuns.ListedTwice` | internal/store/settlement.go:30-36 | The concrete run: a funded deposit is listed, linked to batch 0, listed again, and taken to batch 1; nothing is then linked to batch 0, which has recorded one check. |
| `BatchLinks.ListsItsFileExactly` | internal/store/settlement.go:178-194 | After any further triggers and acknowledgements, the transfers read for a batch are exactly the checks of its file exactly when no later link took one away or brought another in; then also as many as recorded. |
| `BatchLinks.CompletesItsFileExactly` | internal/settlement/engine.go:206-274 | An acknowledgement in any interleaving, to the end of its loop: it leaves all rows of its list Completed or Returned and has completed no other; and the list is the file of the batch under exactly that condition. |
| `Funding.Evaluate` | internal/funding/engine.go:48-76 | The early-exit loop gives the first objection, the duplicate rejection or the approval; with the production rules each of its answers, with its code, exactly for the requests meant for it: a duplicate, unreadable MICR, a mismatched amount, a barred account, an amount over the limit, no omnibus account, approval with the contribution type it sets. |
| `Funding.EngineDecides` | internal/funding/rules.go:18-105 | The same of the evaluation function, in terms of the request: status, type, limit and vendor result decide which code is given, in that order of precedence. |
| `Funding.ApprovesIff` | internal/funding/engine.go:48-76 | Approval exactly when no duplicate is found, every rule passes and the omnibus account resolves, which it names. |
| `Funding.RuleOrderIsIrrelevant` | internal/funding/engine.go:54-66 | A permutation of the rules changes no approval. |
| `Funding.WithoutVendorResult` | internal/funding/rules.go:18-44 | Asked without a vendor result, the production rules never flag, and approve exactly eligible requests. |
| `Funding.FlaggingAgreesOnPass` | internal/funding/rules.go:80-105 | For IQA pass the flow's own flagging lets through exactly what the engine, given the vendor result, would approve. |
| `Flow.FlowAgreesWithEngine` | internal/orchestrator/flow.go:97-184 | The whole verdict against an engine given the vendor result: the flow alone pays out exactly for MICR without routing under an IQA status neither pass nor fail, the engine alone approves exactly for a failed image or a vendor duplicate with routing, on requests nothing else stops; otherwise they agree. |
| `Store.Database.constructor` | internal/store/transfers.go:66-70 | A database in a given state, with a process about to start. |
| `Store.Database.LookUpAccount` | internal/store/accounts.go:32-60 | The account as it is now, with its omnibus account, or an error. |
| `Store.Database.Create` | internal/store/transfers.go:74-89 | Exactly one row appended, in Requested, when the constraints hold. |
| `Store.Database.GetByID` | internal/store/transfers.go:92-111 | The row, or not found. |
| `Store.Database.UpdateState` | internal/store/transfers.go:186-199 | Compare and set: succeeds exactly when the row is in `from`, changes only its state; otherwise the optimistic-lock error and no change. |
| `Store.Database.WriteEvent` | internal/store/transfers.go:222-233 | Appends one event. |
| `Store.Database.SetReviewReason` | internal/store/transfers.go:254-259 | Changes only the review reason of one row. |
| `Store.Database.SetErrorCode` | internal/store/transfers.go:246-251 | Changes only the error code of one row. |
| `Store.Database.SetContributionType` | internal/store/transfers.go:262-267 | Changes only the contribution type of one row. |
| `Store.Database.SetVssResults` | internal/store/transfers.go:270-283 | Changes only the MICR data of one row. |
| `Store.Database.InsertEntries` | internal/store/ledger.go:30-61 | All entries, in order, exactly when each satisfies the constraints after the ones before it; otherwise none. |
| `Store.Database.PostDoubleEntry` | internal/ledger/service.go:42-89 | Unknown memo: nothing. Otherwise the balanced pair of that memo in one transaction, exactly when it commits. |
| `Store.Database.GetBalance` | internal/store/ledger.go:68-82 | The credits minus the debits of the account. |
| `Store.Database.SetAccountStatus` | internal/store/accounts.go:87-92 | Changes only the status of one account. |
| `Store.Database.AskVendor` | internal/orchestrator/flow.go:63-73 | Any answer, or none. |
| `Store.Database.AskFunding` | internal/funding/engine.go:48-76 | The evaluation of the request with the omnibus account of the correspondent. |
| `Store.Database.GetFeeTerms` | internal/returns/handler.go:127-137 | The fee and fee account as configured at this moment, or an error. |
| `Store.Database.GetBatchStatus` | internal/store/settlement.go:145-156 | The status, or not found. |
| `Store.Database.TransferIDsForBatch` | internal/store/settlement.go:178-194 | The linked transfers, each once, in order of submission. |
| `Store.Database.UpdateBatchStatus` | internal/store/settlement.go:79-97 | Changes only the status of one batch. |
| `Store.Database.SetSettlementBatch` | internal/store/settlement.go:100-111 | Links one row, and sets its settlement time if given. |
| `Store.Database.ListFundsPostedBefore` | internal/store/settlement.go:29-61 | Exactly the FundsPosted rows submitted strictly before the cutoff, each once, in order of submission. |
| `Store.Database.CreateBatch` | internal/store/settlement.go:64-76 | Exactly one PENDING batch appended, when its count and total fit their columns. |
| `Store.Database.Link` | internal/store/settlement.go:100-106 | Links one row and changes nothing else. |
| `Store.Database.MarkBatchSubmitted` | internal/store/settlement.go:79-84 | Changes only the status of one batch, to SUBMITTED. |
| `Refinement.AloneIsARun` | internal/orchestrator/flow.go:49-217 | A handler alone is the run of the interleaved system in which its process begins and takes those turns. |
| `Refinement.ExecutionIsARun` | internal/orchestrator/flow.go:49-217 | Wherever a handler method stands, its database and its process are those of a state the interleaved system reaches. |
| `Refinement.ExecutionsKeepTheBooks` | internal/ledger/service.go:42-89 | Started from a reachable state, at every call of every handler method the ledger consists of balanced pairs and reconciles to zero. |
| `Flow.Transition` | internal/orchestrator/transition.go:27-57 | Table check, then lock, then event; on each failure the matching error and nothing further. |
| `Flow.SetErrorAndReject` | internal/orchestrator/flow.go:220-223 | The error code is stored and the row rejected. |
| `Flow.Validate` | internal/orchestrator/flow.go:52-90 | Requested to Validating and the vendor asked; silent vendor: the row stays in Validating. |
| `Flow.Screen` | internal/orchestrator/flow.go:92-123 | IQA failure or a duplicate rejects with its code; otherwise on to Analyzing with the MICR data stored. |
| `Flow.AskEngine` | internal/orchestrator/flow.go:134-160 | The engine is asked without the vendor result, and its decision logged. |
| `Flow.Decide` | internal/orchestrator/flow.go:125-184 | Reject, review with the engine's reason before the flow's own, or go on, as the verdict says. |
| `Flow.ApproveDeposit` | internal/orchestrator/flow.go:186-194 | Approved, with the contribution type the engine set. |
| `Flow.PostProvisional` | internal/orchestrator/flow.go:196-208 | The credit pair posted exactly when it commits; otherwise the deposit stops in Approved. |
| `Flow.PostCredit` | internal/orchestrator/flow.go:196-217 | The credit pair, then FundsPosted; a refused pair leaves the row in Approved and the ledger as it was. |
| `Flow.PayDeposit` | internal/orchestrator/flow.go:186-217 | Approved, credited and FundsPosted, or stopped in Approved without a posting. |
| `Flow.Fund` | internal/orchestrator/flow.go:125-217 | From Analyzing to the end: what the funding verdict says. |
| `Flow.Assess` | internal/orchestrator/flow.go:92-217 | From the vendor's answer to the end: what the verdict says. |
| `Flow.ProcessDeposit` | internal/orchestrator/flow.go:49-217 | Makes exactly the calls of its process; when nothing fails: for every vendor answer, duplicate check and captured detail, the row it leaves, with state, error code, review reason, contribution type and MICR data, the two entries it posts, and what it reports; a refused pair leaves the row in Approved with nothing posted. |
| `Flow.VerdictIsJudged` | internal/orchestrator/flow.go:92-184 | The verdict, in terms of the answers: glare and blur, vendor duplicates, funding rejections each with their code; VSS_AMOUNT_MISMATCH exactly when amounts differ, VSS_MICR_READ_FAIL exactly when they agree and MICR data is missing or, on a passed image, has no routing number; funds otherwise, with INDIVIDUAL stored exactly for an IRA. |
| `Flow.VerdictInWords` | internal/orchestrator/flow.go:97-217 | Funds are paid out exactly when IQA did not fail, no duplicate was seen, the flow found no reason and the engine approves; what is sent to review is eligible and in the operator's queue. |
| `Flow.CreateDeposit` | cmd/api/handlers/deposit.go:62-186 | When nothing fails, a row is made exactly for a valid amount on an account whose correspondent has an existing omnibus account; it has the account's details as they are now, and the verdict is carried out on it; otherwise nothing changes. |
| `Flow.OpenDeposit` | cmd/api/handlers/deposit.go:71-118 | The account is looked up and the row inserted; when nothing fails, a row exactly under those conditions, and no change otherwise. |
| `Flow.InsertDeposit` | cmd/api/handlers/deposit.go:100-118 | The insert succeeds exactly when the row satisfies the constraints. |
| `Outcomes.DepositSettles` | cmd/api/handlers/deposit.go:62-186 | On any database the service can reach, without faults: no row and no change, or one new row, every column of it as the account, the vendor and the funding rules call for, and the two entries posted exactly when it is FundsPosted; the result is reachable again. |
| `Reviews.PostAction` | cmd/api/handlers/operator.go:77-201 | Makes exactly the calls of its process; when nothing fails: out of scope or missing rows are not found, unreviewable ones refused untouched, and reviewable ones approved and credited, rejected, or (approved while Validating) turned away by the lock. |
| `Reviews.ActOn` | cmd/api/handlers/operator.go:114-191 | The action on a reviewable row. |
| `Reviews.Annotate` | cmd/api/handlers/operator.go:114-130 | The action is logged and an override stored. |
| `Reviews.ApproveAction` | cmd/api/handlers/operator.go:136-170 | Approved, credited from the row as read, FundsPosted; a refused pair leaves it Approved. |
| `Reviews.StoreReason` | cmd/api/handlers/operator.go:172-180 | A reason, if one was given, stored as the error code; otherwise nothing changes. |
| `Reviews.RejectAction` | cmd/api/handlers/operator.go:172-190 | The reason stored as error code, and the row rejected from the state that was read. |
| `Reviews.ProcessReturn` | internal/returns/handler.go:98-223 | Makes exactly the calls of its process; when nothing fails: a no-op if already Returned, an error unless FundsPosted or Completed, and otherwise Returned exactly when the fee terms are found and both postings accepted; a reversal without its fee stays. |
| `Reviews.Reverse` | internal/returns/handler.go:122-158 | Reversal, then fee; the second only if the first was accepted. |
| `Outcomes.ReturnSettles` | internal/returns/handler.go:98-223 | Running alone, on any database the service can reach, without faults: Returned afterwards exactly when it was before or was FundsPosted or Completed with no reversal, the terms found, a valid fee and an existing fee account; one reversal and no fee exactly when only the fee is at fault; otherwise no posting. |
| `Outcomes.ReviewSettles` | cmd/api/handlers/operator.go:77-201 | On any database the service can reach, without faults: an approval in Analyzing credits and funds the row, one in Validating is turned away, a rejection rejects, anything else changes nothing. |
| `Reviews.Finish` | internal/returns/handler.go:160-213 | Returned, and the account flagged COLLECTIONS exactly when its balance is negative. |
| `Reviews.CheckCollections` | internal/returns/handler.go:172-213 | COLLECTIONS exactly when the investor balance is negative. |
| `Calendar.NextDayNumber` | internal/settlement/cutoff.go:70-76 | The next day has the next number and the next weekday, for every date. |
| `Calendar.NumbersIdentify` | internal/settlement/cutoff.go:70-76 | Different dates have different numbers. |
| `Calendar.DateOf` | internal/settlement/cutoff.go:29-31 | Every day number has its date. |
| `Calendar.ExplicitListAddsNothing` | internal/settlement/cutoff.go:181-214 | The explicit list of 2025 and 2026 adds no date to the rules. |
| `Calendar.CountBySevens` | internal/settlement/cutoff.go:98-103 | Counting a weekday day by day through a month agrees with the arithmetic of weeks. |
| `Calendar.NthByRange` | internal/settlement/cutoff.go:98-111 | The nth such weekday of a month, by counting, is the one in the day range; the last is the one within seven days of the end. |
| `Calendar.HolidaysAreTheStatute` | internal/settlement/cutoff.go:80-179 | For every Monday to Friday of every year: a holiday of the source exactly when it is a holiday of 5 U.S.C. section 6103(a), the Friday before one on a Saturday (section 6103(b)) or the Monday after one on a Sunday (Executive Order 11582). |
| `Calendar.BusinessDaysAreWorkdays` | internal/settlement/cutoff.go:70-76 | A day is a business day of the source exactly when it is a Monday to Friday and no observed federal holiday. |
| `Calendar.NeighboursAreApart` | internal/settlement/cutoff.go:80-179 | Two neighbouring weekdays are never both holidays. |
| `Calendar.FourDaysHoldABusinessDay` | internal/settlement/cutoff.go:71-75 | In no year are there four days in a row without a business day. |
| `Calendar.NextBusinessDay` | internal/settlement/cutoff.go:70-77 | The loop ends within four days, on the first day after the given one that is a Monday to Friday and no observed federal holiday, skipping none. |
| `Calendar.Following` | internal/settlement/cutoff.go:70-77 | The first business day after the given one, at most four days on, as a function for the definitions that need it. |
| `Cutoff.CutoffsIncrease` | internal/settlement/cutoff.go:24-30 | Later days have later cutoffs. |
| `Cutoff.BatchDayIsLeast` | internal/settlement/cutoff.go:49-67 | The batch day of a submission is the least business day whose 18:30 cutoff lies strictly after it. |
| `Cutoff.BatchDayIsLeastWorkday` | internal/settlement/cutoff.go:45-67 | In terms of the statute: the least Monday to Friday that is no observed federal holiday and whose cutoff lies after the submission; at that cutoff the clock on the wall shows half past six. |
| `Cutoff.BatchDaysAreMonotone` | internal/settlement/cutoff.go:49-67 | A later submission belongs to the same or a later day. |
| `Cutoff.DueByBusinessDay` | internal/settlement/cutoff.go:49-67 | For every business day: submitted before its cutoff exactly when due by that day. |
| `Cutoff.CutoffDecidesOnBusinessDays` | internal/settlement/cutoff.go:24-67 | The cutoff of a day separates what is due by it from what is not, for all submissions, exactly when the day is a business day. |
| `Cutoff.CurrentCutoffOfTheBatch` | internal/settlement/cutoff.go:32-43 | The current cutoff is that of the batch day of a deposit made now, exactly on business days and after the cutoff of any day; otherwise it is that of today. |
| `Cutoff.TomorrowCoversNow` | cmd/api/handlers/settlement.go:33-35 | Triggering with a clock one day ahead puts every deposit made by now before the cutoff, also when clocks go back. |
| `Listings.InOrder` | internal/store/settlement.go:30-36 | The chosen rows, each once, in order of submission. |
| `Listings.ListDue` | internal/store/settlement.go:29-61 | A result of the query for due rows; there always is one. |
| `Listings.ListLinked` | internal/store/settlement.go:178-194 | A result of the query for linked rows; there always is one. |
| `Listings.DueListingsAgree` | internal/store/settlement.go:29-61 | The query for due rows has one result, but for the order of rows submitted at the same instant: the same transfers, submitted at the same times in turn. |
| `Listings.LinkedListingsAgree` | internal/store/settlement.go:178-194 | So has the query for linked rows. |
| `Grouping.GroupByCorrespondent` | internal/settlement/engine.go:163-167 | The grouping loop: one group per correspondent, each the sub-listing of that correspondent. |
| `Grouping.GroupMembers` | internal/settlement/engine.go:163-167 | A transfer is in the group of its own correspondent and in no other. |
| `Grouping.GroupKeepsOrder` | internal/settlement/engine.go:163-167 | A group is a subsequence of the listing. |
| `Grouping.GroupsAddUp` | internal/settlement/engine.go:192-219 | Counts, amounts and members of disjoint groups add up. |
| `Settlement.BuildSettlementFile` | internal/settlement/engine.go:283-333 | One check per transfer in order, with its identifier, its amount, and its routing, account and check number each in its own field, or blanks; and the total and count of the group. |
| `Stamps.NamesShowEightCharacters` | internal/settlement/engine.go:187 | Two files of a day have the same name exactly when the correspondents agree in eight characters. |
| `Decimals.DigitsReadBack` | internal/settlement/engine.go:187 | A number written with leading zeros reads back, and fills its width exactly when it is small enough. |
| `Stamps.StampReadsBack` | internal/settlement/engine.go:187 | The stamp of a day in the years 0 to 9999 has ten characters, and its three groups of digits read back as the year, the month and the day. |
| `Stamps.StampsIdentify` | internal/settlement/engine.go:187 | Different days of any years have different stamps. |
| `Stamps.NameReadsBack` | internal/settlement/engine.go:187 | Every part of a file name: its fixed text, eight characters of the correspondent, the stamp. |
| `Stamps.NamesShowDayAndEight` | internal/settlement/engine.go:187 | Two files, of any days, have the same name exactly when they are of the same day and the correspondents agree in eight characters. |
| `Settlement.TotalOf` | internal/settlement/engine.go:195-198 | The sum of the amounts of a group. |
| `Settlement.FilesOfOtherDaysStay` | internal/settlement/engine.go:183-190 | What a trigger leaves of the files keeps every file of another day, of whatever correspondent. |
| `Settlement.LinkAll` | internal/settlement/engine.go:206-209 | Exactly the rows of the group are linked when nothing fails, at most those otherwise. |
| `Settlement.Engine.SettleGroup` | internal/settlement/engine.go:183-222 | File, batch and links of one correspondent agree in count and total; succeeds, when nothing fails, exactly when count and total fit their columns. |
| `Settlement.Engine.SettleGroups` | internal/settlement/engine.go:183-224 | The loop over the groups in any order: distinct correspondents, one batch each, totals that add up. |
| `Settlement.Engine.Trigger` | internal/settlement/engine.go:145-225 | Lists the due rows; when it succeeds, batches, report, files and links fit each other and cover the listing; whatever fails, only the batch of due rows may have changed, and only files with the stamp of its day. |
| `Settlement.TriggerPartitions` | internal/settlement/engine.go:163-222 | For every visiting order: each listed transfer is in exactly one batch, batches keep the order of submission, and batch counts and amounts sum to the listing and to the reported totals. |
| `Settlement.ChecksAreInOrder` | internal/settlement/engine.go:163-187 | The checks of a settlement file stand in the order in which their deposits were submitted. |
| `Settlement.FilesReadBackExactly` | internal/settlement/engine.go:183-218 | Every batch's file reference reads back as its own checks and total exactly when the correspondents differ in their first eight characters. |
| `SharedNames.SharedFileIsOverwritten` | internal/settlement/engine.go:186-188 | A concrete complete outcome of a trigger with two correspondents that agree in eight characters: the first batch reads back the second one's file. |
| `Settlement.TriggerListsWhatIsDue` | internal/settlement/engine.go:145-152 | On a business day a trigger lists exactly the FundsPosted transfers that belong to that day or an earlier one. |
| `Settlement.ReplayIsARun` | internal/settlement/engine.go:183-209 | The statements of a trigger are a run of the interleaved system. |
| `Completion.CompleteOne` | internal/settlement/engine.go:245-273 | One turn: a row still in FundsPosted is completed and settled, any other is left alone. |
| `Completion.CompleteAll` | internal/settlement/engine.go:245-274 | Exactly the linked rows still in FundsPosted are completed when nothing fails; otherwise no other row is touched. |
| `Completion.AcknowledgeBatch` | internal/settlement/engine.go:229-281 | Makes exactly the calls of its process; unknown batch: an error; already acknowledged: nothing at all; otherwise all linked FundsPosted rows completed, no other row changed. |
| `SettlementHandler.SubmitBatch` | cmd/api/handlers/settlement.go:51-80 | Marked, read, submitted, acknowledged; without an acknowledgement no row changes. |
| `SettlementHandler.Submit` | cmd/api/handlers/settlement.go:41-83 | Submission of what a trigger has made: which rows and batches are then completed and acknowledged, what is reported, and whether the bank has been sent what is completed. |
| `SettlementHandler.TriggerSettlement` | cmd/api/handlers/settlement.go:29-84 | The whole handler is a run of the interleaved system; whatever fails, rows only go from FundsPosted to Completed, files of other days stay, and the report gives the bank's identifier for acknowledged batches only, when nothing fails for all of those and its own for the others; when nothing fails exactly the due rows of acknowledged batches are Completed, the other due rows are linked and FundsPosted, and nothing else has changed; and the bank was sent every completed row exactly when no acknowledged batch had its file overwritten. |
| `SettlementHandler.UnacknowledgedAreSentAgain` | internal/store/settlement.go:30-36 | After a trigger in which nothing failed, a transfer it sent is in the next listing exactly when the bank did not acknowledge its batch, although it is linked to that submitted batch. |
| `Submission.CompletedAreSent` | cmd/api/handlers/settlement.go:46-81 | Whatever fails: if no acknowledged batch is followed by one of a correspondent that agrees with it in eight characters, every row that the handler completes is a check of the file read for its batch. |
| `Submission.CompletedWereSentExactly` | cmd/api/handlers/settlement.go:46-81 | When nothing fails, exactly then; and if the bank acknowledges everything, exactly when the correspondents differ in their first eight characters. |
| `SharedNames.CompletedWithoutBeingSent` | cmd/api/handlers/settlement.go:46-81 | The handler on a concrete database, without a fault: both deposits end up Completed, and one of them was in no file that was read. |
| `Sse.NeverSendsOnClosed` | internal/events/sse.go:67-96 | In every interleaving of any number of broadcasts: nothing is sent on a closed channel, no buffer exceeds 64, and received plus queued is exactly what was offered while fewer than 64 were waiting. |
| `Sse.RunKeepsOffered` | internal/events/sse.go:67-77 | With one broadcast at a time, each client is offered exactly the messages broadcast while it was registered, in order. |
| `Sse.DeliveredInOrder` | internal/events/sse.go:67-96 | With one broadcast at a time, received plus queued is an in-order subsequence of what was broadcast while registered. |
| `Sse.OverlappingCastsReorder` | internal/events/sse.go:67-77 | In every state with a broadcast under way, a second one can reach any client still to be served that has room for two in the other order; for a client that had missed nothing, delivery is then in order exactly when the messages are equal. |
| `Sse.OneClientWaiting` | internal/events/sse.go:67-77 | Such a state is reached: one client, one broadcast begun. |
| `Sse.Broadcaster.Subscribe` | internal/events/sse.go:80-87 | A new, empty, registered channel. |
| `Sse.Broadcaster.Unsubscribe` | internal/events/sse.go:90-96 | Unregistered, then closed. |
| `Sse.Broadcaster.Broadcast` | internal/events/sse.go:67-77 | Every registered client with room gets the message last, a full one is skipped, and the call is a run of one broadcast. |
| `Sse.Broadcaster.Receive` | internal/events/sse.go:130-141 | The oldest message is taken. |

## Left out

- HTTP decoding, JSON, multipart and image files, authentication, row-level security, idempotency keys,
  notifications, log redaction, health endpoints, the web application and the stub servers: they carry
  no property of this kind.
- Floating point: amounts are whole cents. The code formats a float with two decimals while the column
  is NUMERIC(12,2), so amounts with fractions of a cent can round differently; that is not modelled.
- Time-zone data: `Cutoff.IsZone` states what is used of Chicago (days do not go back, 18:30 is shown
  every day, clocks go back by no more than an hour); `Cutoff.FixedOffsetIsAZone` shows it can be met.
- CutoffForDate, NextBusinessDay and BatchCutoffDate work on dates, not on the midnight instants that
  stand for dates in the code.
- Generated keys: positions in the tables stand for UUIDs, and the length of the ledger for the movement
  id; UUID collisions are not modelled. Correspondent names are strings of at least eight characters, as
  the text of a UUID is.
- The omnibus account of a correspondent is a fixed function of the correspondent; the query would take
  any of several.
- Triggers in the step system: a trigger contributes its inserts and links as actions of the
  environment (`OpenBatch`, `LinkRow`, `MarkSubmitted`), which any number of triggers may interleave;
  `Settlement.ReplayIsARun` shows that the trigger method does nothing else.
- `sqlSettlementQuerier.CreateBatch` (cmd/api/main.go:278-322), a demonstration path that links the
  transfers of all correspondents to one batch.
- `HasRecentTransfer` and its clock: the duplicate checker is an arbitrary answer or error.
- pg_notify, `CreateNotification`, image references, operator names, event payloads and timestamps other
  than the submission and settlement time.
- `SetFromAccountID`, which nothing calls, and the listing filters of the operator queue: that what is sent
  to review meets its condition is in `Flow.VerdictInWords`.
- Store.Database.SetVssResults: the vendor transaction id and its uniqueness are not modelled; a
  rejected update is one of the faults, which the flow ignores.
- Store.Database.LookUpAccount: the queries for the account, its correspondent and the omnibus account are
  one step of the model. Only the status of an account ever changes, and it is read by one of them.
- Settlement.BuildSettlementFile: the file header and the image references of the checks are not modelled.
- Outcomes.ReturnSettles: a return that nothing interrupts; what an acknowledgement does to it in between is
  `Races.ReturnsUnlessOvertaken`.
- SettlementHandler.TriggerSettlement: the reply of the settlement bank is an arbitrary time and identifier,
  or nothing; the bytes submitted are not modelled beyond the file that is read.
- Sse.Broadcaster.Broadcast: the object has one broadcast at a time; overlapping broadcasts, the lock and
  closing during a receive are in the step system.
