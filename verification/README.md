# MingWant Canvas: verified model of its stateful cores

A Dafny project that models the parts of the canvas backend and of its local agent client whose correctness depends on state
kept over many calls, and proves what their code and comments promise. `dafny verify dfyconfig.toml` checks all of it.

The cores, and what is shown for each:

* **Streaming filters** (`Text`, `RelayRedactor`, `EventStream`, `EventVerdict`, `RelayStream`). The custom relay removes the
  caller's API key from a stream it sees in chunks, and checks server-sent events (WHATWG HTML Living Standard, section 9.2.5)
  on the way. The chunked filter is compared with one replacement over the whole text, for every secret and every way of cutting; the two
  agree exactly when no inserted mask can feed the beginning of the secret. The chunked event check equals a reference that
  normalises all line endings at once, cuts at blank lines and folds the blocks, and what makes a stream complete is told from
  its blocks without the parser. The relay loop joins both with its limit.
* **Credits** (`Ledger`, `LedgerEffects`, `TaskBilling`, `TaskAdmission`, `FinanceRepository`, `CreditPolicy`). Accounts, the
  append-only ledger, billing orders, redeem codes, task creation and retry. Every transaction is a function on the tables;
  the repository's methods are written imperatively and proved equal to it, and what each does is stated field by field.
  Status reads are separate steps from the conditional updates that follow, so the results hold for all interleavings of the
  two.
* **System proxy** (`SystemProxy`). One paid request from its reservation to settled, refunded or uncertain, over every
  upstream stream, every split into reads, failing writes, failing database accesses and other people's work in between.
* **Task leases** (`TaskLease`, `TaskRuns`). Claim, renewal, provider-call marks, deferral, final writes, cancellation, manual
  recovery and retry as guarded updates of one row, in any order; and the rows of all tasks together with their orders.
* **Runtime coordinator** (`Coordinator`, `SlotHistory`). Rate windows and leased slots as local maps and as Redis scripts, on
  one clock; every answer is also told from the calls and answers before it, without the tables.
* **Generated media** (`GeneratedMedia`, `SourcePaths`). The quota accounting around the media of one result, with an early
  exit at almost every step and other calls in between, and the source paths the resources are found by (escaping as in
  RFC 6901, section 3).
* **Agent client** (`LineFraming`, `CodexTurns`, `CodexClient`). Line framing and the settling of started turns.

Objects whose methods change fields are classes (`RelayStreamRedactor`, `EventStreamIntegrity`, `FinanceRepository`,
`TaskRecord`, `RuntimeCoordinator`, `UploadService`, `BillingService`, `CodexAppClient`); a method's contract ties the new
fields to a function of the old ones, and the results about whole runs are proved about those functions.

What the environment decides is a parameter or an arbitrary choice: what a read returns, whether a write or a database access
fails, the clock, what a line decodes to. The methods `OtherCalls` and `OtherWork` stand for concurrent callers; their bodies
show one possible act, and every proof uses their contracts only. The parameters `alone` (no other caller), `calm` (no access
fails, no check forbids to go on) and `quiet` (both) tell the runs apart in which an operation has to succeed.

## What the code does not promise

Where a natural property is false of the code, the code is modelled as it is and the exact limits are proved:

* The relay filter searches for a held-back border in text that already contains the mask. A secret that starts with an end
  of `[REDACTED]`, or contains the mask, can be emitted differently from one replacement over the whole text
  (`RelayRedactor.FedSecretDiffers`); all other secrets, in particular all without `]`, are handled faithfully
  (`RelayRedactor.FaithfulExactlyWhenNotFed`). Replacing a secret can also build it anew out of the mask, so
  that it is sent; `RelayRedactor.NeverSentExactly` says for which secrets.
* A retry checks the previous order before it reserves the new one. If another retry and its failure come in between, two open
  orders can exist (`TaskBilling.EarlyReadBreaksOneOpen`); `TaskBilling.SplitRetryExactly` says when.
* Every final write saves the row object its holder read, so an old copy restores the attempt number, the billing order and the
  provider call state of its time. `TaskLease.FinishKeepsAttemptsExactly`, `TaskBilling.FinalSaveExactly` and
  `TaskLease.CancelledSaveExactly` say for which copies the counter, the one open order and the record of a dispatch survive;
  `TaskLease.StaleRecoveryRewinds`, `TaskBilling.OldCopyBreaksOneOpen` and `TaskLease.OldCopyHidesDispatch` are runs in which
  they do not. `TaskLease.ReadsAreCurrent` says who has to act on what for all copies to be current, and
  `TaskRuns.LastReadsKeepOneOpen` that one open order per task follows.
* A lease that is taken over is fenced off exactly when the new claim uses another owner id (`TaskLease.TakeoverFencesExactly`).
  The worker passes one id per process to every claim (`backend/internal/service/worker.go:95`), so within one process a stale
  goroutine is not fenced.
* If a store fails after its row was created and another call makes that very row ready before this call looks again, the
  day's bytes are given back although the row carries the day (`GeneratedMedia.UploadService.AnotherFinishesTheRow`). The
  contract of `GeneratedMedia.UploadService.PersistGeneratedMedia` returns exactly these rows, and shows that of the rows of
  the call no other goes unpaid and that bytes stay charged without a row only where a release could not be written.
* A request of the Codex server that carries the id of a pending client request is taken for its answer
  (`CodexTurns.CollidingServerRequest`); `CodexTurns.TurnsSettleByTheirReply` says that nothing else keeps a turn from
  settling by its reply.
* Local and Redis rate limits differ when a limit is raised inside a window, and on a server that keeps a key through its
  expiry millisecond (`Coordinator.RaisedLimitDisagrees`, `Coordinator.LingeringKeyDisagrees`);
  `Coordinator.AnswersPartExactly` and `Coordinator.LingeringPartsExactly` say at which calls.

## Model

| member | source | states |
|---|---|---|
| `RelayRedactor.PrefixSuffixLength` | backend/internal/handler/custom_proxy.go:337-348 | the downward search finds the longest proper prefix of the secret that ends the data |
| `Text.ReplaceAllByIndex` | backend/internal/handler/custom_proxy.go:301-306 | the replacement is the repeated search of the library: text up to the first occurrence, the mask, and the same behind it; text without an occurrence stays |
| `RelayRedactor.RelayStreamRedactor.Push` | backend/internal/handler/custom_proxy.go:317-335 | one push emits and holds back what the cut of the replaced text says; a final push flushes the redaction of the held bytes; held bytes are fewer than the secret |
| `RelayRedactor.PushKeepsStep` | backend/internal/handler/custom_proxy.go:317-335 | if no mask feeds the secret, what was emitted followed by the redaction of what is held and of any continuation is the redaction of everything fed |
| `RelayRedactor.StreamIsRedaction` | backend/internal/handler/custom_proxy.go:301-348 | for every cutting, the concatenated output and the final flush equal one leftmost replacement over the whole text, unless a mask feeds the secret |
| `RelayRedactor.BracketFreeIsFaithful` | backend/internal/handler/custom_proxy.go:308-348 | a secret without `]` is never fed by a mask, so streaming equals the one-shot form |
| `RelayRedactor.FedSecretDiffers` | backend/internal/handler/custom_proxy.go:317-348 | for every secret that a mask end feeds or that contains the mask there are chunks whose output differs from the one-shot redaction |
| `RelayRedactor.FaithfulExactlyWhenNotFed` | backend/internal/handler/custom_proxy.go:301-348 | streaming equals the one-shot redaction for every cutting if and only if no mask feeds the secret |
| `RelayRedactor.AbsentExactlyWhenNotRebuilt` | backend/internal/handler/custom_proxy.go:308-315 | the secret is absent from every redacted text if and only if the mask does not meet it, neither at an end of its own nor behind copied text, so that replacing cannot build it anew |
| `RelayRedactor.NeverSentExactly` | backend/internal/handler/custom_proxy.go:301-348 | for every secret: it occurs in no output, however the stream is cut, if and only if replacing it cannot build it anew |
| `RelayRedactor.BracketFreeNotRebuilt` | backend/internal/handler/custom_proxy.go:308-315 | a secret without brackets that the mask does not spell cannot be built anew |
| `EventStream.EventStreamIntegrity.Push` | backend/internal/handler/stream_proxy.go:212-225 | one chunk: buffer, line endings with a held carriage return, complete blocks consumed until one fails |
| `EventStream.EventStreamIntegrity.Finish` | backend/internal/handler/stream_proxy.go:227-242 | the last block, then the checks for data seen and a terminal event |
| `EventStream.EventStreamIntegrity.ConsumeBlock` | backend/internal/handler/stream_proxy.go:256-297 | the loop over lines gathers event name and data of one block; `EventVerdict.BlockEffect` says what the effect is |
| `EventStream.TwoPassesAreOne` | backend/internal/handler/stream_proxy.go:244-254 | replacing CRLF and then CR is converting all line endings in one left-to-right pass |
| `EventStream.PushTracks` | backend/internal/handler/stream_proxy.go:212-225 | after every accepted push the parser state is that of the whole text so far, whatever the chunks were; a failing push decides for every continuation |
| `EventStream.FinishTracks` | backend/internal/handler/stream_proxy.go:227-242 | closing gives the verdict on the whole text |
| `EventStream.ChunkingIsIrrelevant` | backend/internal/handler/stream_proxy.go:212-242 | two cuttings of the same text get the same verdict, a carriage return at a chunk end or at the end of the stream included |
| `EventStream.LastLineFeed` | backend/internal/handler/stream_proxy.go:227-242 | one more line feed after the unfinished remainder changes nothing, whether it completes a block or not |
| `EventStream.DirectIsJudge` | backend/internal/handler/stream_proxy.go:212-297 | the verdict by the code's own steps is the reference: normalise, cut at blank lines, fold the blocks, close |
| `EventStream.IncrementalIsWholeText` | backend/internal/handler/stream_proxy.go:212-297 | for every cutting the incremental verdict is the verdict on the concatenated text, whose meaning is `EventVerdict.AcceptedExactly` |
| `EventVerdict.BlockEffect` | backend/internal/handler/stream_proxy.go:256-297 | one block fails exactly if it has data that is neither `[DONE]` nor a JSON event free of errors, as bad JSON or as an upstream error; otherwise it counts as data if it has any, and as the close exactly if it is `[DONE]`, a terminal payload or carries a closing name |
| `EventVerdict.BlocksAreCut` | backend/internal/handler/stream_proxy.go:212-225 | the blocks put together with their blank lines are the text, and no block holds a blank line |
| `EventVerdict.LinesAreCut` | backend/internal/handler/stream_proxy.go:256-270 | the lines of a block joined by line feeds are the block, and no line holds one |
| `EventVerdict.JudgedExactly` | backend/internal/handler/stream_proxy.go:212-297 | for any library the verdict on a text is read off its blocks: accepted if and only if none fails, some has data and some closes the stream; each error if and only if its reason holds, the first failing block deciding |
| `EventVerdict.AcceptedExactly` | backend/internal/handler/stream_proxy.go:212-297 | the same for the incremental check and every cutting of the text |
| `RelayStream.RelayRead` | backend/internal/handler/custom_proxy.go:221-257 | for every secret an error event is sent only at the limit or for a text that cannot pass, and the check keeps in step; the filter keeps in step unless a mask feeds the secret |
| `RelayStream.RelayEnd` | backend/internal/handler/custom_proxy.go:258-272 | at the end of the source the stream is delivered exactly when the whole text passes; unless a mask feeds the secret the held bytes complete its redaction |
| `RelayStream.CopyStream` | backend/internal/handler/custom_proxy.go:214-279 | for every secret: it ends as a failed write exactly if a write failed, otherwise it is delivered if and only if the source ends cleanly, is shorter than the limit and passes the check; an error event is sent exactly once or not at all. Unless a mask feeds the secret, what was relayed is on every exit a prefix of the redaction of the whole text, and all of it when delivered. A secret that cannot be built anew is on every exit in nothing that was relayed |
| `Ledger.ReserveKeepsInv` | backend/internal/repository/finance.go:380-418 | a reservation keeps all balances, sums, entries and backing exact |
| `Ledger.CloseKeepsInv` | backend/internal/repository/finance.go:614-692 | settling or refunding with a status read earlier keeps the books exact |
| `Ledger.ReservedCovers` | backend/internal/repository/finance.go:664-674 | in exact books the reserved balance covers every order about to be closed |
| `Ledger.MarkKeepsInv` | backend/internal/repository/finance.go:561-603 | moving an open order between open states keeps the books exact |
| `Ledger.GrantKeepsInv` | backend/internal/repository/finance.go:29-63 | a grant by reference keeps the books exact and never enters a reference twice |
| `Ledger.AdjustKeepsInv` | backend/internal/repository/finance.go:782-822 | an admin adjustment keeps the books exact and no balance negative |
| `Ledger.RedeemKeepsInv` | backend/internal/repository/finance.go:900-949 | redeeming keeps the redeem totals equal to the worth of the codes held |
| `Ledger.CodesKeepInv` | backend/internal/repository/admin_audit.go:163-175 | creating codes and disabling unused ones leaves all sums as they are |
| `Ledger.StepAdvances` | backend/internal/repository/finance.go:561-780 | no event changes anything but the status of an order, and nothing of a closed one or of a used or disabled code |
| `Ledger.ClosingNeedsPermission` | backend/internal/repository/finance.go:605-612 | only a call that may close uncertain orders closes one, never an execution |
| `Ledger.UncertainWaitsForReview` | backend/internal/repository/finance.go:561-612 | over every run an uncertain order stays uncertain, whatever executions do with old or new reads, until a call that may close uncertain orders |
| `Ledger.BooksAlwaysExact` | backend/internal/repository/finance.go:29-63 | after every interleaving: available and reserved are the sums of their deltas and not negative, reserved is what open orders hold, the two together are income less settled orders, each entry's "after" fields are the running sums |
| `Ledger.OrdersEnteredOnce` | backend/internal/repository/finance.go:614-780 | after every interleaving each order has one reserve entry and exactly one closing entry when, and only when, it is settled or refunded |
| `Ledger.InconsistentBranchIsDead` | backend/internal/repository/finance.go:664-674 | the "reserved credit balance is inconsistent" error cannot occur in any reachable state, however old the status read is |
| `Ledger.ClosedForGood` | backend/internal/repository/finance.go:614-780 | on every run a closed order stays as it is, and so does a redeemed or disabled code |
| `Ledger.OneOrderPerKey` | backend/internal/model/models.go:326-327 | in every reachable state two orders of a user have different idempotency keys |
| `Ledger.CreditedOnce` | backend/internal/repository/finance.go:900-949 | on every run a reference and a code are credited at most once, a code exactly when it is redeemed, and a user's redeem total is the worth of the codes held |
| `Ledger.PaysOnlyFreshCodes` | backend/internal/repository/finance.go:910-922 | a code pays out only while it is unused and before the time it expires at, and is redeemed by that |
| `Ledger.DisabledNeverPays` | backend/internal/repository/admin_audit.go:163-168 | once its batch was disabled a code is never credited again |
| `LedgerEffects.AdjustsExactly` | backend/internal/repository/finance.go:782-822 | an adjustment is made if and only if available plus the amount is not negative; it then raises available by exactly the amount, leaves reserved and all other users alone, and enters the amount with its own sign |
| `LedgerEffects.GrantsExactly` | backend/internal/repository/finance.go:29-63 | a grant is made if and only if its reference is in no entry, and then by exactly its amount |
| `LedgerEffects.RedeemsExactly` | backend/internal/repository/finance.go:900-949 | a code is redeemed if and only if it is unused and its expiry lies ahead, for exactly its amount |
| `LedgerEffects.ReservesExactly` | backend/internal/repository/finance.go:380-418 | an order is reserved if and only if the balance covers it and the user has none under its key; the amount moves from available to reserved |
| `LedgerEffects.ClosesExactly` | backend/internal/repository/finance.go:614-780 | in exact books an order is closed if and only if both the row read before and the row found are open, an uncertain one only by permission; settling takes the amount from reserved, refunding moves it back to available |
| `LedgerEffects.RefusesExactly` | backend/internal/repository/finance.go:605-692 | the error of every closing that changes nothing |
| `LedgerEffects.MarksExactly` | backend/internal/repository/finance.go:561-603 | only a reserved order starts to run, and every open order can be left for review |
| `LedgerEffects.DisablesExactly` | backend/internal/repository/admin_audit.go:163-175 | exactly the unused, unexpired codes of the batch are disabled |
| `LedgerEffects.RunCredits` | backend/internal/repository/finance.go:29-63 | over every run the income entered for a user grows by the amounts that accepted grants, adjustments and redemptions asked for |
| `LedgerEffects.BalanceIsCreditsLessSettlements` | backend/internal/repository/finance.go:614-692 | in every reachable state a user's available and reserved balance together are those amounts less the user's settled orders |
| `FinanceRepository.FinanceRepository.GrantCreditsOnce` | backend/internal/repository/finance.go:29-63 | the statements of the method have the modelled effect, and the account returned is the one left behind |
| `FinanceRepository.FinanceRepository.ReserveBillingOrder` | backend/internal/repository/finance.go:380-418 | balance check, unique key, order row, account and entry, or no change at all |
| `FinanceRepository.FinanceRepository.MarkBillingRunning` | backend/internal/repository/finance.go:561-583 | only a reserved order becomes running; an id without a row is an error |
| `FinanceRepository.FinanceRepository.MarkBillingUncertain` | backend/internal/repository/finance.go:585-603 | any open order becomes uncertain, a closed one is a conflict, an id without a row an error |
| `FinanceRepository.FinanceRepository.SettleBillingOrder` | backend/internal/repository/finance.go:614-692 | the closing update guards on the row as it is now; refusals, and an id without a row, leave every table as it was |
| `FinanceRepository.FinanceRepository.RefundBillingOrder` | backend/internal/repository/finance.go:703-780 | the same for refunds, with the available balance restored |
| `FinanceRepository.FinanceRepository.AdjustCredits` | backend/internal/repository/finance.go:782-822 | the statements of the method have the modelled effect, which `LedgerEffects.AdjustsExactly` spells out |
| `FinanceRepository.FinanceRepository.RedeemCode` | backend/internal/repository/finance.go:900-949 | lookup by hash, status and expiry, then code, account and entry together |
| `FinanceRepository.FinanceRepository.DisableRedeemBatch` | backend/internal/repository/admin_audit.go:163-168 | exactly the unused, unexpired codes of the batch become disabled |
| `FinanceRepository.FinanceRepository.DisableRedeemCode` | backend/internal/repository/admin_audit.go:170-175 | the same for one code, and whether it was possible; an id without a row is not |
| `FinanceRepository.FinanceRepository.CreateTaskWithCreditReservation` | backend/internal/repository/finance.go:237-250 | limit, request key, reservation and task row together or not at all |
| `FinanceRepository.FinanceRepository.RetryTaskWithBilling` | backend/internal/repository/finance.go:286-361 | the checks on status, recovery lease and previous order, then the commit: the whole retry is the step whose runs are studied in `TaskBilling` |
| `FinanceRepository.FinanceRepository.CommitRetry` | backend/internal/repository/finance.go:312-361 | limit, request key, reservation, guarded row update and session check; a refusal at any point restores every table |
| `TaskAdmission.CreatesExactly` | backend/internal/repository/finance.go:237-250 | a task is created if and only if the user has fewer tasks in progress than the limit, none of them under its request key, and its order can be reserved; otherwise nothing changes |
| `TaskAdmission.RetriesExactly` | backend/internal/repository/finance.go:312-361 | the commit of a retry goes through if and only if that holds, the task has ended, no live recovery holds it and its session is there; otherwise nothing changes |
| `TaskAdmission.RetryWaitsForItsOrder` | backend/internal/repository/finance.go:286-311 | without a confirmation a retry is refused exactly while the task's order is open |
| `TaskAdmission.BusyTasksAreAdmitted` | backend/internal/repository/finance.go:286-372 | after every run a user has at most as many tasks in progress as creations and retries were allowed, and no two of them under one request key |
| `TaskBilling.OneOpenOrderPerTask` | backend/internal/repository/finance.go:286-361 | in every run without confirmed retries in which final writes name the row's order or find it closed, no two open orders belong to one task, and the open one is the task's current order |
| `TaskBilling.FinalSaveExactly` | backend/internal/repository/repository.go:787-797 | a final write, of whatever copy, keeps the open order the current one if and only if it names the row's order or that order is closed |
| `TaskBilling.OldCopyBreaksOneOpen` | backend/internal/repository/repository.go:771-797 | a concrete run in which the owner of attempt 2 saves the copy of attempt 1, the next retry passes its checks, and two orders of the task are open |
| `TaskRuns.LastReadsKeepOneOpen` | backend/internal/repository/repository.go:771-797 | if every final write saves what its owner read last and manual recoveries claim the attempt they read, then after every run of creations, unconfirmed retries, bookings and lease-guarded writes of all tasks no two open orders belong to one task, the open one is the order of its row, and its attempts are its starts |
| `TaskBilling.LateRetriesLose` | backend/internal/repository/finance.go:312-343 | on a task that is in progress again every retry fails and leaves no trace |
| `TaskBilling.OnlyOneRetryWins` | backend/internal/repository/finance.go:286-361 | of any number of retries racing for one ended task exactly the first acceptable one wins; the others' reservations are rolled back |
| `TaskBilling.SplitRetryExactly` | backend/internal/repository/finance.go:299-343 | with other work between the checks and the commit, a winning retry keeps one open order exactly when the row's order is closed by then |
| `TaskBilling.EarlyReadBreaksOneOpen` | backend/internal/repository/finance.go:299-343 | a concrete run in which it is not closed by then, and two open orders result |
| `CreditPolicy.CreditAmount` | backend/internal/service/credit_policy.go:148-164 | on 64-bit integers no intermediate value overflows; it succeeds exactly for valid arguments whose product is at most 2^63-1-9999 and returns the rounded-up price; the negative branch is dead |
| `CreditPolicy.Quotient` | backend/internal/service/credit_policy.go:152-158 | the overflow guards by division decide the product comparison exactly |
| `CreditPolicy.PriceIsCeiling` | backend/internal/service/credit_policy.go:147-164 | the price is the least amount that covers the product |
| `CreditPolicy.NewBillingOrder` | backend/internal/service/finance.go:487-534 | an order is built exactly for a priced model of the right capability and mode within range; a listed model is charged by its own multiplier, every other by the default, per second or once |
| `CreditPolicy.BonusReferencesDistinct` | backend/internal/service/credit_policy.go:113-135 | bonus references of different users, days or kinds differ |
| `CreditPolicy.CheckinOncePerDay` | backend/internal/service/credit_policy.go:122-135 | a repeated check-in of a day grants nothing and does not hold up another day |
| `SystemProxy.BillingService.PrepareProxyBillingIdempotency` | backend/internal/service/finance.go:409-422 | a request whose key has an order is refused before it waits |
| `SystemProxy.BillingService.ReserveProxyBilling` | backend/internal/service/finance.go:424-450 | a fresh reserved order in exact books, or none; where all is quiet an order exactly if the balance covers it and its key is new, the amount then reserved |
| `SystemProxy.BillingService.MarkBillingRunning` | backend/internal/service/finance.go:547-552 | fails only if storage failed or someone else closed the order; where all is quiet no balance changes |
| `SystemProxy.BillingService.SettleBillingFromExecution` | backend/internal/service/finance.go:561-566 | a running order is settled, unless storage failed or someone else closed it; where all is quiet its amount leaves reserved |
| `SystemProxy.BillingService.RefundBillingFromExecution` | backend/internal/service/finance.go:575-580 | the same for refunds; where all is quiet the amount is available again |
| `SystemProxy.BillingService.MarkBillingUncertain` | backend/internal/service/finance.go:582-587 | the same for leaving the order to be reviewed; where all is quiet no balance changes |
| `SystemProxy.ReadLimited` | backend/internal/handler/auth.go:818-845 | a body is read without fault and within the limit exactly when all of it arrived and is no longer, and then it is all of it |
| `SystemProxy.StreamBody` | backend/internal/handler/auth.go:926-987 | unless a write to the client failed: delivered exactly when the stream ends cleanly, is within the limit and passes the check; the client has a prefix on every exit |
| `SystemProxy.ProxyStream` | backend/internal/handler/auth.go:913-1012 | settled only for a complete, delivered and logged stream, otherwise uncertain; no error event reaches the client only if settled or disconnected |
| `SystemProxy.ProxyPlain` | backend/internal/handler/auth.go:818-909 | settled, refunded or uncertain by status, completeness, limit, JSON and log |
| `SystemProxy.ProxyAnswer` | backend/internal/handler/auth.go:759-909 | the same from the moment the request was sent, a broken connection included |
| `SystemProxy.ProxySystemRequest` | backend/internal/handler/auth.go:711-1012 | a paid request is sent only with an order; undisturbed, the order ends refunded exactly if nothing was sent or the rejection is beyond doubt, settled exactly for a complete, logged, delivered result, and uncertain otherwise; in no case does this request settle or refund it without that reason, and a refund of a sent request needs a status outside 2xx, 408, 499 and 5xx other than 501. Where all is quiet an order is made and the request sent exactly if the key is new, the balance covers the price, the slot is free and no deadline passed; the user has then paid exactly what was not refunded, and exactly an uncertain amount stays reserved |
| `SystemProxy.RefundsExactly` | backend/internal/service/finance.go:648-659 | by the status numbers: free is what was not sent, or a rejection read to its end whose status says for certain that nothing was produced |
| `SystemProxy.ChargesExactly` | backend/internal/handler/auth.go:759-909 | what has to be paid for: a 2xx answer, complete and within the limit, of a kind that passes its check |
| `TaskLease.TaskRecord.ClaimNextTask` | backend/internal/repository/repository.go:417-474 | a task is claimed if and only if it is queued, or running with neither a lease nor a poll time ahead; a new attempt only out of the queue, the call state kept on lease recovery |
| `TaskLease.TaskRecord.RenewTaskLease` | backend/internal/repository/repository.go:476-487 | only the owner of a running row renews |
| `TaskLease.TaskRecord.DeferTaskProviderPoll` | backend/internal/repository/repository.go:581-600 | only the owner gives the row back |
| `TaskLease.TaskRecord.PrepareClaimedTaskProviderCall` | backend/internal/repository/repository.go:724-748 | needs a live lease, never moves the call state backwards |
| `TaskLease.TaskRecord.MarkClaimedTaskProviderCallDispatched` | backend/internal/repository/repository.go:752-768 | needs a live lease and a preflight or later state |
| `TaskLease.TaskRecord.SaveTaskTerminal` | backend/internal/repository/repository.go:771-797 | guards on status and owner, then writes the whole row object back, its billing order included |
| `TaskLease.TaskRecord.CancelTaskIfStatus` | backend/internal/repository/repository.go:839-861 | guards on status and, if restricted, on the call state |
| `TaskLease.TaskRecord.ClaimRecoverableTaskProviderRecovery` | backend/internal/repository/repository.go:631-660 | takes an ended task that no live recovery holds |
| `TaskLease.TaskRecord.ReleaseTaskProviderRecovery` | backend/internal/repository/repository.go:676-680 | only the holder releases |
| `TaskLease.TaskRecord.RetryTask` | backend/internal/repository/finance.go:312-343 | requeues an ended task that no live recovery holds |
| `TaskLease.CancelExcludesDispatch` | backend/internal/repository/repository.go:839-861 | if a cancel restricted to pending and preflight succeeds, then over all interleavings, with owner ids used again and workers saving cancelled rows, nothing was dispatched in this attempt and nothing will be before a retry |
| `TaskLease.CancelledUnsentRow` | backend/internal/repository/repository.go:839-861 | a cancelled row that still says pending or preflight was never dispatched, whether a user or a worker cancelled it, if workers that save a cancelled row save the dispatch mark it has |
| `TaskLease.CancelledSaveExactly` | backend/internal/service/service.go:1400-1419 | after every run, one final save as cancelled keeps that record if and only if it saves a dispatch mark wherever the row has one |
| `TaskLease.OldCopyHidesDispatch` | backend/internal/service/service.go:1400-1419 | a concrete run in which an id claims twice and the copy of its first claim, saved as cancelled, hides the dispatch of the second |
| `TaskLease.CallStateOnlyAdvances` | backend/internal/repository/repository.go:724-768 | while an attempt runs its call state never moves backwards |
| `TaskLease.Fenced` | backend/internal/repository/repository.go:476-629 | once superseded by another claim, a deferral, a cancel or a retry, no write on behalf of the old owner changes the row, whatever happens next, until that owner itself claims again |
| `TaskLease.FencedSince` | backend/internal/repository/repository.go:476-629 | from any write on that takes the row from its owner (another claim, a deferral, a final write, a cancel, a recovery claim, a release, a retry) the writes of that owner change nothing until it claims again |
| `TaskLease.FencedExactly` | backend/internal/repository/repository.go:476-629 | in every running row the writes of an owner change nothing if and only if it does not hold the row |
| `TaskLease.TakeoverFencesExactly` | backend/internal/repository/repository.go:417-487 | a takeover fences the old holder off if and only if it comes under another id |
| `TaskLease.AttemptsAreStarts` | backend/internal/repository/repository.go:440-456 | attempts equals the number of queued-to-running steps on every run in which final rows are copies of the current attempt; lease recovery adds none, and owner ids may be used again |
| `TaskLease.AttemptsCountStarts` | backend/internal/repository/repository.go:440-456 | a step other than a final write adds to `attempts` exactly if it takes the task out of the queue |
| `TaskLease.ReadsAreCurrent` | backend/internal/service/worker.go:95-120 | if every final write saves what its owner read last and manual recoveries claim the attempt they read, all saved copies are current, in attempt and billing order, however often ids are used again |
| `TaskLease.FinishKeepsAttemptsExactly` | backend/internal/repository/repository.go:771-797 | a final write keeps the counter exact if and only if the copy it writes is current |
| `TaskLease.StaleRecoveryRewinds` | backend/internal/repository/repository.go:631-660 | a concrete run in which a recovery's old copy puts the counter back and the earlier billing order with it |
| `TaskLease.RecoveryHoldsTheTask` | backend/internal/repository/repository.go:631-660 | while a manual recovery is live neither retry, claim, cancel nor a second recovery takes the task |
| `TaskLease.WorkerHoldsTheTask` | backend/internal/repository/repository.go:417-474 | over every run of others' events before its lease ends, short of a user's cancel, a worker keeps its running task: nothing but the poll time changes |
| `TaskLease.RunningIsClaimedExactly` | backend/internal/repository/repository.go:423-456 | a claim of a running row takes it if and only if no lease and no poll time lies ahead |
| `TaskLease.DeferredWaits` | backend/internal/repository/repository.go:581-600 | a task given back until a poll time is left alone until then |
| `TaskLease.SucceededForGood` | backend/internal/repository/repository.go:771-797 | no run takes a succeeded task up again |
| `TaskLease.DispatchNeedsLease` | backend/internal/repository/repository.go:752-768 | a provider call is recorded as sent only by the owner of a running task, under a live lease, after it was announced |
| `Coordinator.RuntimeCoordinator.SweepLocalState` | backend/internal/service/coordination.go:273-293 | at most once a minute, exactly what has expired is dropped |
| `Coordinator.RuntimeCoordinator.Allow` | backend/internal/service/coordination.go:158-174 | the local fixed window |
| `Coordinator.RuntimeCoordinator.AcquireLease` | backend/internal/service/coordination.go:185-218 | the local slot table: expired tokens out, limit, new token |
| `Coordinator.RuntimeCoordinator.RenewSlot` | backend/internal/service/coordination.go:220-251 | only an unexpired token is renewed, an expired one is removed |
| `Coordinator.RuntimeCoordinator.ReleaseSlot` | backend/internal/service/coordination.go:253-270 | one token out, an empty scope with it |
| `Coordinator.StepAgrees` | backend/internal/service/coordination.go:72-98 | from agreeing states every call, with any limit, is answered alike by local maps and scripts if and only if its guards do not part, and the two sides agree afterwards |
| `Coordinator.AnswersPartExactly` | backend/internal/service/coordination.go:154-270 | on every call sequence with a non-decreasing clock and any limits, the answers of local maps and Redis scripts to a call differ if and only if the local count is below its limit and the limit is at most the Redis count (or, in a new window, the limit is below 1); on a server whose keys linger, up to and including the first rate check in an expiry millisecond |
| `Coordinator.LingeringPartsExactly` | backend/internal/service/coordination.go:72-76 | in the expiry millisecond of a key that is still there local maps admit, and Redis exactly if its count is below the limit |
| `Coordinator.SameAnswers` | backend/internal/service/coordination.go:154-270 | if no limit is raised, all answers are the same, with or without the sweep, lowered limits included; on a server whose keys linger too, as long as no rate check falls into the expiry millisecond of its key |
| `Coordinator.SweepIsUnobservable` | backend/internal/service/coordination.go:273-293 | no call sequence, whatever its limits, can tell whether the sweep runs |
| `Coordinator.ExpiryDropsNothingLive` | backend/internal/service/coordination.go:78-98 | key expiry never drops a slot that has not expired itself |
| `Coordinator.GrantWithinLimit` | backend/internal/service/coordination.go:185-218 | right after a grant at most `max` unexpired slots exist in the scope, in the local maps |
| `Coordinator.RedisGrantWithinLimit` | backend/internal/service/coordination.go:78-85 | and in Redis |
| `Coordinator.AtMostTwiceLessOne` | backend/internal/service/coordination.go:154-174 | every half-open interval as long as the window admits at most 2L-1 requests per key, on local maps and, whether keys linger or not, on Redis, whatever the limits of other keys |
| `Coordinator.BoundIsTight` | backend/internal/service/coordination.go:154-174 | 2L-1 is reached |
| `Coordinator.RaisedLimitDisagrees` | backend/internal/service/coordination.go:154-174 | an input on which the guards part: a limit raised inside a window |
| `Coordinator.LingeringKeyDisagrees` | backend/internal/service/coordination.go:72-76 | an input on which a key that lingers makes the difference |
| `SlotHistory.AnswersByHistory` | backend/internal/service/coordination.go:154-270 | on every ordered call sequence each answer of the local maps is the one its past calls for: a slot is given if and only if fewer than `max` tokens hold one, a renewal succeeds if and only if its token still holds one, a request is refused if and only if a window runs that has admitted the limit |
| `SlotHistory.RedisAnswersByHistory` | backend/internal/service/coordination.go:72-98 | and each answer of the Redis scripts, as long as no limit is raised |
| `SlotHistory.LeasesLast` | backend/internal/service/coordination.go:185-251 | a slot that was given can be renewed until its end, whatever else is called in between, unless another call names its token |
| `GeneratedMedia.ChargedOnce` | backend/internal/database/schema.go:98-99 | under the unique index one task output is charged once at most, over all days, after any number of runs |
| `GeneratedMedia.UploadService.ReserveGeneratedResourceQuota` | backend/internal/service/upload_quota.go:29-63 | process and day together, or neither: granted only while ready bytes, session files, pending bytes and the file stay below the storage limit and the day below its own, and always then if no access fails |
| `GeneratedMedia.UploadService.ReserveRecoveredStorage` | backend/internal/service/upload_quota.go:94-115 | the process only, granted only while stored, pending and new bytes stay below the limit, and always then if no access fails |
| `GeneratedMedia.UploadService.ReleaseDailyUpload` | backend/internal/repository/repository.go:1190-1198 | the guarded subtraction on the day's row, clamped at zero; a failing one changes nothing and is counted |
| `GeneratedMedia.UploadService.ReleaseUserUploadQuota` | backend/internal/service/upload_quota.go:72-82 | both, clamped at zero; the day's bytes are lost exactly if the write to the day failed |
| `GeneratedMedia.UploadService.ReleaseGeneratedCandidateQuotas` | backend/internal/service/generated_resource.go:384-397 | exactly the reservations still held in the range are dropped, the day too unless a row carries it |
| `GeneratedMedia.UploadService.GeneratedResourceForCandidate` | backend/internal/service/generated_resource.go:336-357 | the row found is one of this output with the same media, letter case of the type aside; none is reported only if there is none, and an error only for a failed access, other media or a young pending row |
| `GeneratedMedia.UploadService.LookUpAll` | backend/internal/service/generated_resource.go:130-141 | on success every candidate with a source has a usable row of its output as the table stands when it is looked up, and none only if there is none; alone, calm and with no row in the way it succeeds; nothing is held on either exit |
| `GeneratedMedia.UploadService.ReserveAll` | backend/internal/service/generated_resource.go:142-166 | each candidate without a ready row is reserved, in full only where its row has no day; a refusal gives everything back; alone, calm and with room for all it succeeds |
| `GeneratedMedia.UploadService.ClaimStaleGeneratedResource` | backend/internal/repository/repository.go:1236-1242 | only a pending row untouched since the given time is claimed |
| `GeneratedMedia.UploadService.ClaimAll` | backend/internal/service/generated_resource.go:167-194 | all pending rows are claimed and those without a day noted, or everything is given back; alone and calm every row found is claimed and kept |
| `GeneratedMedia.UploadService.SetClaimedGeneratedResourceQuotaDays` | backend/internal/repository/repository.go:1244-1267 | all days are bound, each to a pending row without one, or none |
| `GeneratedMedia.MarkBound` | backend/internal/service/generated_resource.go:200-206 | after binding exactly the bound candidates have handed their day over |
| `GeneratedMedia.HandedOver` | backend/internal/service/generated_resource.go:195-206 | binding moves exactly the candidates' daily bytes to their rows, which takes distinct paths |
| `GeneratedMedia.UploadService.StoreResource` | backend/internal/service/resource.go:208-259 | which row a store leaves behind and whether it carries the day, for each way it can fail |
| `GeneratedMedia.UploadService.WriteClaimedPendingResource` | backend/internal/service/generated_resource.go:359-382 | the day stays with the row whether the write succeeds or not |
| `GeneratedMedia.UploadService.RacedResource` | backend/internal/service/generated_resource.go:246-253 | a ready row found after a failed store stands in for it; it is the row this call created exactly if there is one, and undisturbed it never is |
| `GeneratedMedia.UploadService.SettleStore` | backend/internal/service/generated_resource.go:253-279 | what becomes of the quota: kept with the row after a store, kept for recovery when a created row is left pending, given back otherwise |
| `GeneratedMedia.UploadService.StoreOne` | backend/internal/service/generated_resource.go:229-280 | a stored, failed or raced candidate holds nothing; the day of a surviving row is given back if and only if it is the row this call created, its store failed and the second look-up found it ready; alone and calm, without a row of the output, exactly one ready row is added |
| `GeneratedMedia.UploadService.RecoverOne` | backend/internal/service/generated_resource.go:213-228 | a recovered candidate drops the process part only; calm, the row found before is the one that is ready now |
| `GeneratedMedia.UploadService.FindAndReserve` | backend/internal/service/generated_resource.go:130-166 | the look-ups and the reservations together: alone, calm and unhindered every candidate is reserved with the row that the table had for it |
| `GeneratedMedia.UploadService.ClaimAndWrite` | backend/internal/service/generated_resource.go:167-286 | claims, days and writes together: alone and calm every claimed row is completed and every missing one added |
| `GeneratedMedia.UploadService.PersistGeneratedMedia` | backend/internal/service/generated_resource.go:115-286 | on every exit each in-process reservation is dropped exactly once and each day is charged exactly for what surviving rows carry, other calls hold and failed releases left; bytes are lost only by failed releases; the rows of this call that are not paid for are exactly those whose store failed here and that were then found ready, and undisturbed there are none; on success every candidate has its ready resource. Alone, with no failing access, room for all files and no row in the way it succeeds, and the pending rows that were there before are the ones that are ready afterwards |
| `GeneratedMedia.UploadService.AnotherFinishesTheRow` | backend/internal/service/generated_resource.go:246-276 | for every reserved candidate the run that leaves a row unpaid: create, fail to write, another call looks up, claims and completes the row, look up again, give back |
| `SourcePaths.EscapeRoundTrip` | backend/internal/service/generated_resource.go:430-432 | decoding an escaped key as RFC 6901 prescribes gives the key back, so escaping is injective |
| `SourcePaths.NoSlash` | backend/internal/service/generated_resource.go:430-432 | an escaped key holds no bare slash |
| `SourcePaths.ItoaRoundTrip` | backend/internal/service/generated_resource.go:298-301 | decimal indices are injective and hold no slash |
| `SourcePaths.PathsAreDistinct` | backend/internal/service/generated_resource.go:295-334 | two nodes of one value have the same path if and only if they are the same node |
| `SourcePaths.IndexAndKeyCollide` | backend/internal/service/generated_resource.go:298-330 | across different values an index and a key can make the same path |
| `SourcePaths.Collect` | backend/internal/service/generated_resource.go:295-334 | the walk yields exactly the objects with decodable media, in order, with their paths; undecodable data ends it unless skipped |
| `SourcePaths.CandidatesAreDistinct` | backend/internal/service/generated_resource.go:295-334 | the candidates of one result have pairwise different paths |
| `SourcePaths.PersistValue` | backend/internal/service/generated_resource.go:115-286 | collecting and persisting together, for any result: what `PersistGeneratedMedia` says of the quota on every exit and of success, every site of the result ready then |
| `LineFraming.FramingIgnoresChunks` | canvas-agent/src/agents.ts:190-201 | the same lines are handed over however the output is cut |
| `LineFraming.FramingRoundTrip` | canvas-agent/src/agents.ts:190-201 | lines sent with either ending arrive unchanged, in order, through any chunks |
| `CodexTurns.HandleKeeps` | canvas-agent/src/agents.ts:203-232 | handling one message keeps every started turn in exactly one place: awaiting its answer, its continuation or its completion, or settled once as expected |
| `CodexTurns.NextKeeps` | canvas-agent/src/agents.ts:163-174 | so does running one continuation of `startTurn` |
| `CodexTurns.TurnsSettleAsExpected` | canvas-agent/src/agents.ts:163-232 | after every run each started turn has been settled exactly once with what the message taken for its answer and its completion make of it, the completion handled before the answer, in the same chunk or later; or not yet, while one is missing |
| `CodexTurns.AnswerIsReplyExactly` | canvas-agent/src/agents.ts:203-209 | the message taken for the answer is the server's reply if and only if no request of the server carried the id first |
| `CodexTurns.TurnsSettleByTheirReply` | canvas-agent/src/agents.ts:163-232 | after every run with an orderly server a started turn is where the server's own reply puts it if and only if no request of the server carried its id first or the reply names no turn either; `CodexTurns.TurnsSettleByTheirMessages` says where that is |
| `CodexTurns.TurnsSettleByTheirMessages` | canvas-agent/src/agents.ts:163-232 | after every run with an orderly server that took no request's id: an error reply rejects a turn with its text, a reply without a turn with the fixed text, a completion with an error with that error's text, a completion without one resolves it, once; until then it is open |
| `CodexTurns.NeverSettledTwice` | canvas-agent/src/agents.ts:163-263 | whatever the server sends, in whatever order and under whatever ids, and whether or not it then exits, no started turn is settled twice |
| `CodexTurns.ChunksSettleAlike` | canvas-agent/src/agents.ts:190-201 | cutting the same output differently settles every turn alike |
| `CodexTurns.ExitSettlesTheRest` | canvas-agent/src/agents.ts:259-263 | when the process exits every open turn is rejected with the exit's text, settled ones stay as they are, and none is settled twice |
| `CodexTurns.CollidingServerRequest` | canvas-agent/src/agents.ts:203-209 | an input: a server request with the id of a pending request is taken for its answer |
| `CodexClient.CodexAppClient.StartTurn` | canvas-agent/src/agents.ts:163-180 | the synchronous part of starting a turn |
| `CodexClient.CodexAppClient.Handle` | canvas-agent/src/agents.ts:203-209 | the order in which a message is tried as error, answer and notification, and the table each leaves |
| `CodexClient.CodexAppClient.HandleTurnCompleted` | canvas-agent/src/agents.ts:218-227 | settle the waiting turn, rejected with the error's text or resolved without one, or keep the completion for it |
| `CodexClient.CodexAppClient.Resume` | canvas-agent/src/agents.ts:164-174 | the part of `startTurn` behind its await: rejected without a turn id, settled by a completion that came before, else active |
| `CodexClient.CodexAppClient.Read` | canvas-agent/src/agents.ts:190-201 | one chunk: buffer, lines, messages, then the continuations |
| `CodexClient.CodexAppClient.FailAll` | canvas-agent/src/agents.ts:259-263 | every waiting promise is rejected and the tables are emptied |

## Left out

- Bytes are characters: the filters work on sequences of bytes, modelled as `string`; nothing depends on an encoding. Decoding a chunk of agent output to text byte by byte (`chunk.toString()`), where a multi-byte character may be cut, is not part of this model.
- JSON parsing, trimming and lower-casing in the event check are uninterpreted; media types are compared with ASCII letters folded, other letters by themselves.
- EventVerdict.AcceptedExactly: which JSON payloads report an error or end a stream is the library's `decode`, a parameter; it asks of trimming and lower-casing what `EventStream.Lawful` says.
- EventStream.IncrementalIsWholeText: asks of trimming and lower-casing what `EventStream.Lawful` says; `EventStream.ChunkingIsIrrelevant` asks nothing.
- RelayStream.CopyStream: what was relayed is compared with the redaction only for secrets that no mask feeds, because the filter is not faithful to the others.
- TaskBilling.OneOpenOrderPerTask: takes a retry's checks and its commit as one step and final writes to be harmless, because otherwise it fails; `TaskBilling.SplitRetryExactly` and `TaskBilling.FinalSaveExactly` treat the two exactly.
- TaskRuns.LastReadsKeepOneOpen: takes a retry's checks and its commit as one step and no retry to be confirmed over an open order, as `TaskBilling.OneOpenOrderPerTask` does.
- TaskLease.AttemptsAreStarts: holds for runs whose final writes save copies of the current attempt; `TaskLease.FinishKeepsAttemptsExactly` is exact for one write.
- TaskLease.CancelledUnsentRow: holds for runs whose workers save the dispatch mark of a row they save as cancelled; `TaskLease.CancelledSaveExactly` is exact for one write.
- Coordinator.AnswersPartExactly: on a server whose keys linger it ends with the first rate check in an expiry millisecond, since from there on the two sides count different windows.
- CodexTurns.TurnsSettleAsExpected: takes the server to use each turn id once and to complete it at most once (`CodexTurns.Orderly`).
- CodexTurns.TurnsSettleByTheirReply: takes the same.
- CodexTurns.TurnsSettleByTheirMessages: takes the same, and a turn whose id no request of the server took; `CodexTurns.AnswerIsReplyExactly` treats the others.
- GeneratedMedia.UploadService.PersistGeneratedMedia: success is promised for undisturbed runs in which no access fails and the files of all candidates fit together; in all other runs it may fail, and what then holds is stated for every exit.
- SlotHistory.RedisAnswersByHistory: holds for limits that are never raised, because otherwise the two sides count differently (`Coordinator.AnswersPartExactly`).
- SystemProxy.ProxySystemRequest: that an order is made and the request sent is promised where nobody else works on the books meanwhile and no access fails.
- Balances and sums are unbounded integers; 64-bit arithmetic is modelled where it is done in Go, in `CreditPolicy.CreditAmount`, not in SQL.
- Ids are row numbers or given strings, so generated ids never collide. A transaction is one step, split only between a read and the conditional update that relies on it. A failed database write is assumed not to have been committed.
- Channel-model lookup, note and log texts, progress values, timestamps, analytics, audit events and usage fields.
- `normalizeProxyBillingIdempotencyKey`, header and URL checks, protocol detection of a response prefix and transport observations in the system proxy: their outcome is part of the exchange.
- Sending response headers and a plain body to the client: only streamed delivery has conditions on the order.
- Progress and checkpoint writes of a claimed task appear as one owner-guarded write; sessions, messages and results saved with a final state do not appear.
- The Redis clock is the caller's clock; whether a key is still there at its expiry millisecond is a parameter. The wait loop of `acquireWithWait`, circuit breakers and network failures of Redis are not modelled.
- `applyReadyGeneratedResources` writes resource URLs into the result; only which candidates are ready is modelled. The file or object write itself succeeds or fails.
- A process that dies inside `persistGeneratedMediaValueMode` keeps what it had reserved on the day; all exits of the code itself are covered.
- A user's rows and one process are modelled in `UploadService`; other users never touch them. Rows that other calls gave back are counted as theirs.
- Delta texts, usage figures and emitted events of the agent client.
- Project, asset, shot, announcement and share pages, video validation, channel probes and the web front end: wide but shallow.
