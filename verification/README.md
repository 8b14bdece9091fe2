# Models of the Airwallex integration for ERPNext

The integration mirrors a payment provider's records into an accounting system that operators work
in at the same time. Deliveries repeat, listings overlap, workers die, and the books have to stay
right. This project models the parts where that is hardest and proves what they keep.

- **Bill payments.** `PaymentModel` states what one import, one pass over a bill and one withdrawal do to
  the ledger; `PaymentBooks` is the same in place, method by method, each proved equal to its function.
  `PaymentEffects`, `PaymentSteps` and `PaymentWithdrawals` give the effect of each operation on every entry
  and invoice. On these rest convergence (`PaymentPasses`, `PaymentConvergence`, `PaymentForecast`,
  `PaymentLimits`), safety over every run (`PaymentRuns`), inputs that go wrong (`PaymentInputs`), maximality and
  withdrawal (`PaymentBills`), the entries' fields (`PaymentEntries`) and prices
  (`PaymentQuotes`, `ExchangeRates`, `Money`).
- **Webhook events.** `WebhookEvents` has the store and whole jobs: the retry budget, absorbing statuses,
  termination. `WebhookInterleaving` takes jobs and reapers apart into single reads and writes: exactly-once
  booking, when Processed is final, and what the attempts count.
- **Webhook subscriptions.** `Subscriptions` brings a remote that may fail at any call to one subscription.
- **Feeds.** `SyncCursor`, `Pagination`, `Banking` and `BankingReplay`: which records a run lists, how pages
  become a listing, and what overlapping listings book.
- **Rules and receipts.** `Rules`, `Receipts`, `ReceiptFiles` and `FileDedup`.

Money is an integer number of cents and rates are exact. Dates and times are integers; the present day, the
answers of the remote and the ends of handlers are parameters. An empty string stands for a missing one.

## Where the code does less than it says

Properties that turned out not to hold of the code are stated with the exact condition under which they do.

- Two passes over a bill do not always reach a fixpoint: entries are compared by their total over all
  invoices, so an entry that holds another invoice can look right until the room changes
  (`TwoPassesCanFallShort`). `TwoPassesSufficeExactlyWhen` gives the condition, `TwoPassesSufficeIsForetold` tells
  it one pass earlier, and `Converges` gives the bound.
- A bill that keeps listing a cancelled payment books and withdraws it in turn (`PassFlips`);
  `RestsExactlyWhenAllSettle` says when reconciling comes to rest, and `CancelledTransferNeverRests` is a bill.
- A dry run takes an entry that an operator cancelled for one it could update or remove (`DryRunFidelity`,
  `CancelledEntryIsMisread`).
- A repeated delivery queues a job whatever the event's status, so a dead letter can be claimed beyond its
  maximum (`JobKeepsBudgetExactlyWhen`, `DuplicateDeliveryRevivesADeadLetter`).
- Processed is not final while a job or a reaper that has read the event is under way: recording the result
  is part of the attempt, so even a single job can write Processed, fail, and put the event back to retrying
  (`OneJobCanUndoProcessed`, `ProcessedIsFinalExactlyWhen`); bookings are still made exactly once.
- The scheduler's reaper lists enabled connections only, so an event whose worker died on a disabled one stays
  in processing until a sweep is asked for that connection, or a job queued before runs
  (`FinishesExactlyWhenEnabled`).
- Overlapping jobs write the same attempts, so an event can be claimed beyond its maximum
  (`AttemptsCountClaimsExactlyWhen`, `OverlappingClaimsExceedTheMaximum`).
- A receipt whose attachment id is on a file of another target is skipped, and the result still reads attached
  (`AllArriveExactlyWhen`, `AnotherTargetKeepsTheId`).
- Removing a subscription deletes the remembered id even if it is at another URL, which docs/webhooks.md rules
  out (`RemovalSparesOthersExactlyWhen`, `RemovalReachesAnotherAddress`).
- A run limited to one module, or cut at its maximum, moves the cursor of all modules (`ModuleRunLosesRecords`);
  `MixedRunsGapFreeExactlyWhen` says when that loses records.

## Model

| member | source | states |
|---|---|---|
| `Money.RoundsToNearest` | airwallex_erpnext/utils.py:34-45 | Money is within half a cent of the decimal amount, and an exact half moves away from zero. |
| `Money.NearestIsUnique` | airwallex_erpnext/utils.py:34-45 | There is no other rounding with those two properties, so the function is the half-up rounding. |
| `Money.RoundingIsIdempotent` | airwallex_erpnext/utils.py:34-45 | Rounding an amount that is already money changes nothing. |
| `Money.RoundingIsMonotone` | airwallex_erpnext/utils.py:34-45 | A larger amount never rounds to less money. |
| `Money.RoundingIsOdd` | airwallex_erpnext/utils.py:34-45 | Negative amounts round as the mirror image of positive ones. |
| `Text.StripMeans` | airwallex_erpnext/services/exchange_rates.py:30-31 | Stripping takes blanks off both ends and leaves none there. |
| `Text.UpperMeans` | airwallex_erpnext/services/exchange_rates.py:30-31 | Upper-casing moves each small letter to its capital and leaves the rest. |
| `Text.TextBelowMeans` | airwallex_erpnext/rules.py:57 | A text is below another if it is a proper beginning of it or has the lesser character where they first differ. |
| `ExchangeRates.RatePrecedence` | airwallex_erpnext/services/exchange_rates.py:18-46 | An identity is one whatever is on record, a payload rate makes the table irrelevant, and a rate in the asked direction makes the opposite one irrelevant. |
| `ExchangeRates.OneDirectionGivesReciprocals` | airwallex_erpnext/services/exchange_rates.py:33-46 | A pair stored in one direction only resolves both ways, to exact reciprocals. |
| `ExchangeRates.TableRateIsNewest` | airwallex_erpnext/services/exchange_rates.py:70-80 | The table answers with the newest row on or before the date, never with a later one. |
| `ExchangeRates.TableRateMeans` | airwallex_erpnext/services/exchange_rates.py:70-80 | A table rate is the positive rate of the newest row of the pair on or before the date, the first listed among equals, and nothing else is. |
| `ExchangeRates.ResolvedExactlyWhenRated` | airwallex_erpnext/services/exchange_rates.py:30-46 | A rate is resolved if and only if it is one for the same currency, else the payload rate, else the newest row of the pair, else the reciprocal of the opposite pair. |
| `ExchangeRates.PayloadRateMeans` | airwallex_erpnext/services/exchange_rates.py:49-67 | The payload rate is the first of six keys, the transfer before the payment, unless the payload names another pair. |
| `PaymentQuotes.PricesAreNearest` | airwallex_erpnext/services/payments.py:167-202 | A priced payment has a positive amount and three positive rates, and its received and invoice amounts are within half a cent of the exact conversion. |
| `PaymentQuotes.SameCurrencyIsExact` | airwallex_erpnext/services/payments.py:186-202 | Where the invoice or the credit account is in the source currency the converted amount is what was paid, to the cent, at any rate. |
| `PaymentQuotes.PricedExactlyWhen` | airwallex_erpnext/services/payments.py:160-235 | A payment is priced at given terms if and only if they follow from the payload, the invoice and the rows of the rate table: which rate each currency has, which account, date, mode and parties. |
| `PaymentQuotes.ChoicesMean` | airwallex_erpnext/services/payments.py:161-171 | Currencies, posting date, amount, identity and mode are each the first that is given; a zero amount is not. |
| `PaymentQuotes.HeldForWhatIsMissing` | airwallex_erpnext/services/payments.py:163-194 | An unpriced payment is held for the first thing that is missing. |
| `PaymentSteps.AdmitStep` | airwallex_erpnext/services/payments.py:42-63 | The whole effect of importing a payment without an entry: a new entry allocated min(amount, room) if it is creatable, nothing otherwise; invoice totals are unchanged. |
| `PaymentSteps.RetireStep` | airwallex_erpnext/services/payments.py:104-108 | The whole effect of importing a retired payment that has a live entry: no entry has its id any more, its allocation is free again, totals are unchanged. |
| `PaymentSteps.AdjustStep` | airwallex_erpnext/services/payments.py:110-127 | The whole effect of importing a payment that has a live entry: it ends up holding exactly its due of this invoice and of no other, unless it already matched; every invoice keeps its total. |
| `PaymentSteps.ImportFrame` | airwallex_erpnext/services/payments.py:36-63 | One import adds and removes entries of its own payment only. |
| `PaymentEntries.AdjustedEntryIsAsQuoted` | airwallex_erpnext/services/payments.py:110-127 | A live entry exists as quoted if and only if amounts, rates to two places, date, reference, mode and total all agreed; otherwise a draft is rewritten and a submitted entry replaced, each field from the quote. |
| `PaymentEntries.AdjustedEntryAgrees` | airwallex_erpnext/services/payments.py:265-281 | After the import every compared field of the entry is the quote's; only a draft keeps its old mode where the quote has none. |
| `PaymentEntries.CreatedEntryIsAsQuoted` | airwallex_erpnext/services/payments.py:42-63 | When a payment without an entry gets one, what each of its fields is, and otherwise the first reason why not. |
| `PaymentEntries.RetiredMeans` | airwallex_erpnext/services/payments.py:105-108 | Four states and any type but transfer and external retire a payment. |
| `PaymentEntries.RetiredEntryGoes` | airwallex_erpnext/services/payments.py:130-146 | What becomes of the entry of a retired payment in each state, and the reason reported. |
| `PaymentEntries.UnreconciledEntryIsHeld` | airwallex_erpnext/services/payments.py:110-127 | An entry whose invoice is not submitted or whose payment is not priced is held as it is. |
| `PaymentEntries.UnnamedPaymentIsHeld` | airwallex_erpnext/services/payments.py:36-38 | A payment without any id is held. |
| `PaymentEntries.AllocationMeans` | airwallex_erpnext/services/payments.py:257-262 | Each reference to the invoice counts with its amount, and no other document does. |
| `PaymentEntries.DryOutcomeMeans` | airwallex_erpnext/services/payments.py:58-59 | A dry run writes nothing and announces what the live call does. |
| `PaymentEffects.AmendEffect` | airwallex_erpnext/services/payments.py:149-157 | Cancelling and reinserting returns the old allocation and takes the new one; the old entry loses the id before the new one takes it. |
| `PaymentEffects.RemoveEffect` | airwallex_erpnext/services/payments.py:137-146 | Removing an entry gives back its allocation, whether it was a draft or submitted, and frees its id. |
| `PaymentEffects.SubmitEffect` | airwallex_erpnext/tests/frappe_stub.py:99-106 | Submitting moves an allocation from the drafts to the outstanding amount; the room left is unchanged. |
| `PaymentEffects.CancelEffect` | airwallex_erpnext/tests/frappe_stub.py:107-114 | Cancelling adds the allocation back to each invoice it references. |
| `PaymentPasses.Sync.StepPlaces` | airwallex_erpnext/services/payments.py:36-63 | After one import the payment is placed: it has an entry holding what it may, or will never get one. |
| `PaymentPasses.Sync.StepFills` | airwallex_erpnext/services/payments.py:110-127 | Importing a placed payment only grows its allocation, fills it or exhausts the room, and changes nothing if it was filled on this invoice. |
| `PaymentConvergence.FirstPass` | airwallex_erpnext/services/payments.py:66-90 | From any well-formed ledger one pass places every payment of the bill and leaves nothing to withdraw. |
| `PaymentConvergence.SecondPass` | airwallex_erpnext/services/payments.py:66-90 | A second pass takes room only and leaves every entry of this invoice full, or no room. |
| `PaymentConvergence.SecondPassOnlyGrows` | airwallex_erpnext/services/payments.py:238-254 | In the second pass no entry of this invoice loses any allocation. |
| `PaymentConvergence.Converges` | airwallex_erpnext/services/payments.py:66-90 | Two passes, plus one for each entry that holds another invoice, reach a ledger that further passes leave as it is. |
| `PaymentConvergence.TwoPassesSuffice` | airwallex_erpnext/services/payments.py:66-90 | With every observed entry on its own invoice a third pass changes nothing, and every reconciled payment is full or no room is left. |
| `PaymentConvergence.TwoPassesSufficeExactlyWhen` | airwallex_erpnext/services/payments.py:121-127 | Two passes are enough if and only if each entry that then still holds another invoice holds in all what this invoice would give it. |
| `PaymentForecast.TwoPassesSufficeIsForetold` | airwallex_erpnext/services/payments.py:66-90 | Whether the second pass is the last can be told from the ledger after the first by arithmetic: if and only if each entry of another invoice that holds its due at its turn still does in the room all payments leave. |
| `PaymentForecast.SecondPassIsForetold` | airwallex_erpnext/services/payments.py:238-254 | That arithmetic gives the room after the second pass and which entries of other invoices it leaves in place. |
| `PaymentConvergence.TwoPassesSufficeAfterTheFirst` | airwallex_erpnext/services/payments.py:66-90 | Two passes are enough whenever the first leaves every entry of the bill on this invoice only. |
| `PaymentLimits.RestsExactlyWhenAllSettle` | airwallex_erpnext/services/payments.py:39-63 | Reconciling over and over comes to rest if and only if no payment the bill shows as ended would be created anew, or its id is held by an entry an operator cancelled. |
| `PaymentLimits.PassFlips` | airwallex_erpnext/services/payments.py:42-63 | Otherwise each pass books the ended payment or withdraws it, in turn. |
| `PaymentInputs.CancelledTransferNeverRests` | airwallex_erpnext/services/payments.py:42-63 | A concrete bill of one cancelled transfer that never comes to rest. |
| `PaymentLimits.TwoPassesCanFallShort` | airwallex_erpnext/services/payments.py:265-280 | A concrete ledger on which the second pass is not yet a fixpoint, because an entry is compared by its total over all invoices. |
| `PaymentRuns.DryRunIsPure` | airwallex_erpnext/services/payments.py:66-90 | A dry run of a whole bill changes no entry and no invoice. |
| `PaymentRuns.DryRunFidelity` | airwallex_erpnext/services/payments.py:117-127 | The dry outcome announces the live outcome if and only if the payment's entry is not one an operator cancelled and the dry run takes for live. |
| `PaymentInputs.CancelledEntryIsMisread` | airwallex_erpnext/services/payments.py:117-127 | A concrete operator-cancelled entry for which the dry run announces an update and the live run holds. |
| `PaymentRuns.SoundMeans` | airwallex_erpnext/services/payments.py:238-254 | In a sound ledger no payment has two live entries and outstanding amounts cover the drafts. |
| `PaymentRuns.ActionIsSound` | airwallex_erpnext/services/payments.py:16-90 | Every import, reconciliation, operator action and arriving invoice keeps the ledger sound and every invoice's total. |
| `PaymentRuns.EveryRunIsSound` | airwallex_erpnext/services/payments.py:16-90 | Over every run: outstanding plus submitted allocations is the invoice's total, drafts never exceed what is outstanding, and a payment has at most one live entry. |
| `PaymentRuns.EveryReachableLedgerIsSound` | airwallex_erpnext/services/payments.py:16-90 | Every ledger reached from invoices without entries is sound, and each invoice keeps its total. |
| `PaymentBills.WithdrawalIsCompleteAndExact` | airwallex_erpnext/services/payments.py:77-90 | After a pass every live entry on the invoice is one the bill shows, exactly the vanished ones were removed, and no other entry is touched; a bill without payment data changes nothing. |
| `PaymentBills.VanishedMeans` | airwallex_erpnext/services/payments.py:80-88 | A row vanishes by its payment id, or for want of one its reference number. |
| `PaymentBills.ResultsAreInOrder` | airwallex_erpnext/services/payments.py:72-90 | The results are one for each payment in order, each on the ledger it finds, and then one for each entry withdrawn. |
| `PaymentWithdrawals.WithdrawalReports` | airwallex_erpnext/services/payments.py:81-89 | Each withdrawn entry is reported by what it was. |
| `PaymentWithdrawals.WithdrawIsExact` | airwallex_erpnext/services/payments.py:80-89 | Withdrawing removes exactly the listed entries whose id was not observed, and each gives back its allocation. |
| `PaymentBills.FirstImportIsMaximal` | airwallex_erpnext/services/payments.py:195-211 | The first import of a bill allocates min(room, sum of its creatable amounts) and takes exactly that. |
| `PaymentBills.ReimportIsANoOp` | airwallex_erpnext/services/payments.py:117-118 | Importing the same bill again at once changes nothing. |
| `PaymentBooks.Books.constructor` | airwallex_erpnext/tests/frappe_stub.py:87-98 | The books start without entries. |
| `PaymentBooks.Books.Post` | airwallex_erpnext/tests/frappe_stub.py:336-345 | One reference after the other is taken from or given back to its invoice's outstanding amount. |
| `PaymentBooks.Books.SubmitEntry` | airwallex_erpnext/tests/frappe_stub.py:99-106 | A submitted entry is posted to its invoices. |
| `PaymentBooks.Books.CancelEntry` | airwallex_erpnext/tests/frappe_stub.py:107-114 | A cancelled entry is taken back from its invoices. |
| `PaymentBooks.Books.AllocationToInvoice` | airwallex_erpnext/services/payments.py:257-262 | The loop over the references computes the entry's share of one invoice. |
| `PaymentBooks.Books.AvailableOutstanding` | airwallex_erpnext/services/payments.py:238-254 | Outstanding less all drafts but the excluded one, plus that one's own share where it is submitted, is what the model calls available. |
| `PaymentBooks.Books.EntryMatches` | airwallex_erpnext/services/payments.py:265-280 | The comparison of an entry with new values, field by field and by the total of its references. |
| `PaymentBooks.Books.RemovePaymentEntry` | airwallex_erpnext/services/payments.py:137-146 | Drafts are deleted; submitted entries lose their id and are cancelled; cancelled ones stay. |
| `PaymentBooks.Books.AmendPayment` | airwallex_erpnext/services/payments.py:149-157 | Clear the id, cancel, insert the amended entry, submit it if so configured. |
| `PaymentBooks.Books.ReconcileExistingPayment` | airwallex_erpnext/services/payments.py:102-127 | The branches for a payment that has an entry, in the source's order. |
| `PaymentBooks.Books.ImportBillPayment` | airwallex_erpnext/services/payments.py:16-63 | The branches for one observed payment, in the source's order. |
| `PaymentBooks.Books.ImportObservations` | airwallex_erpnext/services/payments.py:72-76 | The observed payments one after the other, each on the ledger the ones before it left. |
| `PaymentBooks.Books.WithdrawUnobserved` | airwallex_erpnext/services/payments.py:80-89 | The loop over linked entries removes those not observed. |
| `PaymentBooks.Books.ImportBillPayments` | airwallex_erpnext/services/payments.py:66-90 | The pass as a whole equals the function the convergence theorems are about. |
| `WebhookEvents.EventStore.StoreEvent` | airwallex_erpnext/services/webhooks.py:20-45 | A first delivery is stored as Received with no attempts; a repeated one only raises the duplicate flag. |
| `WebhookEvents.EventStore.Claim` | airwallex_erpnext/services/webhooks.py:54-55 | The two claim writes, each refreshing the modification time. |
| `WebhookEvents.EventStore.ProcessEvent` | airwallex_erpnext/services/webhooks.py:48-82 | A job claims and finishes its event unless it is Processed or Ignored. |
| `WebhookEvents.EventStore.RecoverConnection` | airwallex_erpnext/services/webhooks.py:102-120 | Of one connection exactly the stale events are requeued or dead-lettered, by their attempts. |
| `WebhookEvents.EventStore.RecoverStaleEvents` | airwallex_erpnext/services/webhooks.py:85-121 | The reaper handles exactly the stale events of the enabled connections, or of the one asked for whether enabled or not, and reports each in the right list. |
| `WebhookEvents.EventStore.ProcessWebhookQueue` | airwallex_erpnext/tasks.py:10-26 | Jobs are queued for exactly the Received and Retrying events. |
| `WebhookEvents.JobKeepsBudgetExactlyWhen` | airwallex_erpnext/services/webhooks.py:50-55 | A job keeps the attempts within the maximum if and only if it finds the event finished or with an attempt left. |
| `WebhookEvents.DuplicateDeliveryRevivesADeadLetter` | airwallex_erpnext/api.py:66-73 | A repeated delivery of a dead letter claims it once more than the maximum and can process it. |
| `WebhookEvents.ReaperKeepsBudget` | airwallex_erpnext/services/webhooks.py:112-120 | The reaper keeps the attempts and the relation of status and attempts. |
| `WebhookEvents.ClaimsStayWithinBudget` | airwallex_erpnext/services/webhooks.py:48-82 | Over every run of deliveries, scheduled jobs, crashes and sweeps, attempts count the claims and never exceed the maximum. |
| `WebhookEvents.TerminalIsAbsorbing` | airwallex_erpnext/services/webhooks.py:50-51 | Over every such run finished events stay as they are. |
| `WebhookEvents.AttemptsStayWithinTheField` | airwallex_erpnext/services/webhooks.py:77 | Over every run from an empty store attempts are at most the connection's own maximum, five where it sets none, and a dead letter has exactly as many. |
| `WebhookEvents.RaisingMeans` | airwallex_erpnext/services/webhooks.py:76-79 | A handler that raises leaves Retrying until the attempt that reaches that maximum, and then Dead Letter. |
| `WebhookEvents.JobMeans` | airwallex_erpnext/services/webhooks.py:54-74 | What a job leaves of an event for each way its handler ends. |
| `WebhookEvents.SupportedMeans` | airwallex_erpnext/services/webhooks.py:64-71 | Handlers take the expense, bill and reimbursement events. |
| `WebhookEvents.SweepMeans` | airwallex_erpnext/services/webhooks.py:103-120 | A sweep takes an event back if and only if it is in processing, covered, and older than the minutes asked for, else configured, else fifteen. |
| `WebhookEvents.DeliveryMeans` | airwallex_erpnext/services/webhooks.py:20-45 | What a delivery stores, field by field. |
| `WebhookEvents.MovesAreBounded` | airwallex_erpnext/services/webhooks.py:50-121 | Over every run a job claims an event, or the reaper takes it back, at most as often as the event has life left. |
| `WebhookEvents.EveryEventIsFinished` | airwallex_erpnext/services/webhooks.py:85-121 | On a connection the sweeps cover, whatever else a run does and even if every worker dies, as many rounds with a job and a sweep past the timeout as the event has life left finish it within its attempts. |
| `WebhookEvents.FinishesExactlyWhenSwept` | airwallex_erpnext/services/webhooks.py:95-111 | Sweeps asked for in one way and jobs on due events can finish an event whose worker died if and only if those sweeps cover its connection. |
| `WebhookEvents.FinishesExactlyWhenEnabled` | airwallex_erpnext/services/webhooks.py:95-111 | The scheduler's own sweeps and jobs on due events can do so if and only if the connection is enabled; a sweep asked for the connection always can. |
| `WebhookEvents.DyingOnADisabledConnection` | airwallex_erpnext/services/webhooks.py:99 | A job whose worker dies on a disabled connection leaves an event that the scheduler's own sweeps and jobs on due events never finish. |
| `WebhookInterleaving.StepBooksAtMostOne` | airwallex_erpnext/services/expenses.py:19-51 | Refinement: each interleaved step leaves the set of booked expenses as it is or adds one stored event's expense that was not in it. |
| `WebhookInterleaving.StepIsSound` | airwallex_erpnext/services/webhooks.py:48-82 | Every step, crashes and stale copies included, keeps the state sound. |
| `WebhookInterleaving.EveryRunIsSound` | airwallex_erpnext/services/webhooks.py:48-121 | Every reachable state is sound, and transactions never change or disappear. |
| `WebhookInterleaving.ExactlyOnceBooking` | airwallex_erpnext/services/expenses.py:19-51 | After any interleaving a processed expense event whose handler was not held has exactly one Bank Transaction. |
| `WebhookInterleaving.ProcessedIsBookedUnlessHeld` | airwallex_erpnext/services/expenses.py:14-51 | Over every run an event with an expense id that no handler held is not reported as held, and if processed it is booked. |
| `WebhookInterleaving.QueuedJobBooks` | airwallex_erpnext/services/expenses.py:27-51 | A queued job on an open expense event, left alone and succeeding, ends Processed with the expense booked. |
| `WebhookInterleaving.QueuedJobClaims` | airwallex_erpnext/services/webhooks.py:49-55 | Its first steps claim the event. |
| `WebhookInterleaving.FailingJobEnds` | airwallex_erpnext/services/webhooks.py:76-79 | A handler that fails leaves Retrying while an attempt is left, else Dead Letter. |
| `WebhookInterleaving.UnbookedJobEnds` | airwallex_erpnext/services/webhooks.py:70-72 | A handler that does not take the event leaves it Ignored, one that holds it Processed; neither books. |
| `WebhookInterleaving.ReaperEnds` | airwallex_erpnext/services/webhooks.py:113-120 | A reaper left alone gives the event back, or ends it when its attempts are used up. |
| `WebhookInterleaving.StartsMean` | airwallex_erpnext/services/webhooks.py:48-51 | What deliveries, jobs and reapers start from; a job ends at once on a finished event. |
| `WebhookInterleaving.ProcessedIsFinalExactlyWhen` | airwallex_erpnext/services/webhooks.py:50-82 | A Processed event stays Processed whatever happens next if and only if every job or reaper on it has yet to read it. |
| `WebhookInterleaving.OneJobCanUndoProcessed` | airwallex_erpnext/services/webhooks.py:68-78 | A reachable run of a single job that writes Processed, fails to record its result, and puts the event back to Retrying. |
| `WebhookInterleaving.ProcessedCanBeOverwritten` | airwallex_erpnext/services/webhooks.py:76-78 | A reachable state in which a second, late-failing job puts a Processed event back to Retrying. |
| `WebhookInterleaving.AttemptsCountClaimsExactlyWhen` | airwallex_erpnext/services/webhooks.py:54-55 | Over every interleaving the attempts never exceed the claims, and count them exactly if and only if no worker claims with a copy that another claim has overtaken. |
| `WebhookInterleaving.OverlappingClaimsExceedTheMaximum` | airwallex_erpnext/services/webhooks.py:54-55 | Two jobs started while the event was due claim it twice where the maximum is one, and the attempts say one. |
| `Subscriptions.EnsureConverges` | airwallex_erpnext/services/webhook_management.py:52-123 | A run that succeeds leaves exactly one subscription at the callback URL, matching version and events; a failing one leaves the settings; other URLs are untouched. |
| `Subscriptions.EnsureKeepsTheChosen` | airwallex_erpnext/services/webhook_management.py:76-102 | A run that succeeds keeps the remembered subscription if it is usable, else a newest usable one, deletes the others at the URL, and creates one if and only if none was usable. |
| `Subscriptions.RememberedIsKept` | airwallex_erpnext/services/webhook_management.py:250-257 | Of two usable subscriptions the remembered one is kept, though the other is newer. |
| `Subscriptions.EnsureRemembersTheKept` | airwallex_erpnext/services/webhook_management.py:109-123 | The one subscription then at the URL has the wanted version and events, and id, url, events and secret are remembered. |
| `Subscriptions.SuccessMeansNoFailure` | airwallex_erpnext/services/webhook_management.py:52-123 | A run succeeds only if enabled, with events, and none of its calls failed. |
| `Subscriptions.NormalUrlMeans` | airwallex_erpnext/webhook_catalog.py:35-36 | URLs are compared without the blanks around and the slashes behind. |
| `Subscriptions.EnsureIsIdempotent` | airwallex_erpnext/services/webhook_management.py:64-84 | With the subscription in place a run deletes and creates nothing, and succeeds if and only if its listings and its final read do. |
| `Subscriptions.SecondRunChangesNothing` | airwallex_erpnext/services/webhook_management.py:52-123 | After a run that succeeds the next one leaves the remote exactly as it is, however the remote behaves, and succeeds if and only if its reads do. |
| `Subscriptions.EnsureSucceeds` | airwallex_erpnext/services/webhook_management.py:52-123 | Against a cooperating remote the run succeeds whatever an earlier run left behind. |
| `Subscriptions.RemovalSparesOthersExactlyWhen` | airwallex_erpnext/services/webhook_management.py:199-215 | Removal leaves other URLs alone, however the remote behaves and in whatever order the deletes come, if and only if the remembered id is not that of a subscription there. |
| `Subscriptions.RemovalSucceeds` | airwallex_erpnext/services/webhook_management.py:196-225 | At a cooperating remote removal succeeds and leaves exactly what is elsewhere and not remembered. |
| `Subscriptions.RemovalMeansNoFailure` | airwallex_erpnext/services/webhook_management.py:209-215 | Removal succeeds only if none of its calls failed. |
| `Subscriptions.RemovalReachesAnotherAddress` | airwallex_erpnext/services/webhook_management.py:206-212 | A concrete connection that remembers a subscription at an earlier URL, which removal deletes. |
| `Subscriptions.Choose` | airwallex_erpnext/services/webhook_management.py:250-257 | The remembered subscription is chosen if it is among the usable ones, else the newest. |
| `Subscriptions.Controller.DeleteItems` | airwallex_erpnext/services/webhook_management.py:73-80 | The deletion loop deletes every item with an id other than the kept one, up to the first failure. |
| `Subscriptions.Controller.EnsureSubscription` | airwallex_erpnext/services/webhook_management.py:52-123 | The run, branch by branch, equals the function the convergence lemmas are about. |
| `Subscriptions.Controller.SaveMetadata` | airwallex_erpnext/services/webhook_management.py:273-281 | What is remembered of a verified subscription; an empty secret keeps the old one. |
| `Subscriptions.Controller.RemoveSubscription` | airwallex_erpnext/services/webhook_management.py:196-225 | The removal loop and its final check equal the function the removal lemmas are about; success leaves none here and forgets id and secret, failure leaves the settings. |
| `Rules.ResolveRules` | airwallex_erpnext/rules.py:54-78 | The loop that skips, merges and breaks equals the fold the lemmas are about. |
| `Rules.ResolveMeans` | airwallex_erpnext/rules.py:57-77 | Each field is the last non-empty value among matching enabled rules up to the first that stops, else the default; likewise the source rule. |
| `Rules.MeaningIsUnique` | airwallex_erpnext/rules.py:57-77 | That description determines the value. |
| `Rules.OrderDoesNotMatter` | airwallex_erpnext/rules.py:57 | With distinct (priority, name) keys every order of the rules gives the same result. |
| `Rules.ResolveMeansByPriority` | airwallex_erpnext/rules.py:54-78 | For distinct keys: each field is that of the last rule to apply, by priority (a thousand if unset) and name, where a rule applies if enabled, matching and behind no such rule that stops. |
| `SyncCursor.Connection.RunSync` | airwallex_erpnext/services/sync.py:19-55 | The cursor moves to the end of a run that succeeds and is not dry, and on no other. |
| `SyncCursor.StartMeans` | airwallex_erpnext/services/sync.py:58-67 | A listing starts the overlap before the cursor, else at the start date, else thirty days back. |
| `SyncCursor.GapFreeExactlyWhen` | airwallex_erpnext/services/sync.py:58-67 | Over any mix of successful, failed and dry uncut runs no record is missed if and only if each landed run but the last took no longer than the overlap. |
| `SyncCursor.UnlandedRunsLeaveNoTrace` | airwallex_erpnext/services/sync.py:44-55 | Failed and dry runs leave every later window as if they had not happened. |
| `SyncCursor.WindowsAreThoseOfLandedCalls` | airwallex_erpnext/services/sync.py:27-45 | The windows of a sequence of calls are those of the calls that land, each from the cursor it finds. |
| `SyncCursor.MixedRunsGapFreeExactlyWhen` | airwallex_erpnext/services/sync.py:44-67 | Over any mix of runs, limited and cut ones included, the full runs miss no record if and only if whatever lands between two successive full runs ends within the overlap from the beginning of the earlier. |
| `SyncCursor.ModuleRunLosesRecords` | airwallex_erpnext/services/sync.py:61-62 | A run limited to one module, or cut at its maximum, between two full ones loses records if and only if it ends later than the overlap after the first began. |
| `Pagination.YieldPage` | airwallex_erpnext/client.py:106-111 | The inner loop yields a page's records in order up to the maximum, and says whether it was reached. |
| `Pagination.PaginateNumbered` | airwallex_erpnext/client.py:119-146 | The generator yields the records of the server's sequence from its first page on, cut at the maximum. |
| `Pagination.PageSizeIsNearest` | airwallex_erpnext/client.py:129 | The page size is the number from one to a thousand nearest to the one asked for. |
| `Pagination.AtMostMeans` | airwallex_erpnext/client.py:132-142 | A cut is a beginning of the maximum's length. |
| `Pagination.RecordsOfRecords` | airwallex_erpnext/client.py:138-140 | Where every item is a record nothing is skipped: the records are the items. |
| `Pagination.PaginateBookmark` | airwallex_erpnext/client.py:94-117 | The generator yields the records of the pages it follows, cut at the maximum, and asks for no cursor beyond them. |
| `Pagination.Server.FollowsEachReachableCursorOnce` | airwallex_erpnext/client.py:112-117 | Cycles included, each reachable cursor is followed exactly once, in order. |
| `Pagination.Server.MeasureFalls` | airwallex_erpnext/client.py:113-116 | The cursors not seen yet bound the requests. |
| `Pagination.Server.ChainIsListedWhole` | airwallex_erpnext/client.py:112-117 | On a chain that ends, all its cursors are followed. |
| `Pagination.Server.ListingIsOfFollowed` | airwallex_erpnext/client.py:103-117 | The listing is the first page and then the pages of the cursors followed, one after the other. |
| `Banking.Bank.ImportFinancialTransaction` | airwallex_erpnext/services/banking.py:12-60 | The branches of a wallet movement in the source's order; a dry run changes no row. |
| `Banking.Bank.ImportExpense` | airwallex_erpnext/services/expenses.py:14-67 | The branches of the Bank Transaction part of an expense; a known one is refreshed, a new one inserted. |
| `Banking.Bank.Sync` | airwallex_erpnext/services/banking.py:63-78 | A listing is imported item by item, and the counts are those of the verdicts. |
| `Banking.At` | airwallex_erpnext/services/banking.py:22-26 | The lookup finds the first row of the item's id. |
| `Banking.BookedMeans` | airwallex_erpnext/services/banking.py:30-55 | What a booked row holds: the mapped account, the net on one side, the reference and ids. |
| `Banking.JudgeMeans` | airwallex_erpnext/services/banking.py:12-33 | The verdict on an item from its fields and the table, in order. |
| `Banking.RefusedMeans` | airwallex_erpnext/services/banking.py:13-33 | An item is refused for want of an id or account, as a card purchase, or as not settled. |
| `BankingReplay.ImportAllIs` | airwallex_erpnext/services/banking.py:12-71 | The rows after any listing are the old ones, refreshed, and one for each eligible new item in the order of first appearance. |
| `BankingReplay.ReplayChangesNothing` | airwallex_erpnext/services/banking.py:22-28 | Replaying any part of a listing changes no row. |
| `BankingReplay.OverlapsAreHarmless` | airwallex_erpnext/services/banking.py:63-71 | Overlapping, repeated and reordered listings leave the same rows as one listing that names every item once. |
| `BankingReplay.BalanceGrowsByDistinctItems` | airwallex_erpnext/services/banking.py:35-45 | Deposits less withdrawals grow by exactly the worth of the distinct eligible new items. |
| `BankingReplay.ListedItemsHaveOneRow` | airwallex_erpnext/services/banking.py:16-19 | A listed item has one row if known or eligible and none otherwise: a card purchase is booked by its expense only. |
| `BankingReplay.IdsStayUnique` | airwallex_erpnext/install.py:19-20 | Imports never give two rows the same id. |
| `Receipts.SelectCandidates` | airwallex_erpnext/services/receipts.py:128-169 | The grouping loop, ranking and comparison equal the function the lemmas are about. |
| `Receipts.GroupsAreByMessage` | airwallex_erpnext/services/receipts.py:139-141 | Each message has one group, of exactly its files in input order. |
| `Receipts.FirstFiveSuffice` | airwallex_erpnext/services/receipts.py:143-158 | Comparing the five best groups holds the choice exactly when comparing all groups would. |
| `Receipts.SelectsExactlyWhen` | airwallex_erpnext/services/receipts.py:150-169 | Files are attached if and only if one message beats every other by more than the margin, and then exactly that message's files. |
| `Receipts.OrderDoesNotDecide` | airwallex_erpnext/services/receipts.py:128-169 | Whether and which files are attached does not depend on the order in which they were found. |
| `Receipts.SelectionIs` | airwallex_erpnext/services/receipts.py:132-169 | By the files' own fields: the provider's files are all taken; of a mailbox's, those of the source with a file that leads all other sources by more than a twentieth, or none. |
| `Receipts.HeldShowsRivals` | airwallex_erpnext/services/receipts.py:152-168 | A held choice shows a best group first and then groups within a twentieth of it, all of them where there are at most five. |
| `ReceiptFiles.Store.AttachCandidate` | airwallex_erpnext/services/receipts.py:172-190 | A file is attached unless its attachment id or its content on the target is there. |
| `ReceiptFiles.Store.AttachSelected` | airwallex_erpnext/services/receipts.py:71-81 | Every selected file is counted once as attached, skipped or failed, the files grow by those attached, and the status follows the counts. |
| `ReceiptFiles.AttachingAgainAddsNothing` | airwallex_erpnext/services/receipts.py:172-190 | Attaching the same files again, in any order, adds none. |
| `ReceiptFiles.AttachingMakesNoTwins` | airwallex_erpnext/services/receipts.py:176-182 | No target gets the same content twice and no attachment id is on two files. |
| `ReceiptFiles.AttachmentIdMeans` | airwallex_erpnext/services/receipts.py:173-174 | The attachment id is up to 140 characters of the attachment or else the source. |
| `ReceiptFiles.JudgeMeans` | airwallex_erpnext/services/receipts.py:177-190 | When a file is skipped, failed or attached, by its id and content. |
| `ReceiptFiles.ContentArrivesExactlyWhen` | airwallex_erpnext/services/receipts.py:177-187 | A content is on the target afterwards if and only if it was before, or a storable selected file of it does not find its attachment id taken at its turn. |
| `ReceiptFiles.AllArriveExactlyWhen` | airwallex_erpnext/services/receipts.py:177-187 | Where attachment ids name contents, every storable selected file has its content on the target if and only if each content is there already or comes under an attachment id no file has. |
| `ReceiptFiles.AnotherTargetKeepsTheId` | airwallex_erpnext/services/receipts.py:177-178 | A file of another target with the attachment id keeps the content away. |
| `FileDedup.KeeperIsGreatest` | airwallex_erpnext/patches/v1_0/deduplicate_receipt_file_records.py:53 | The kept row is of its group and none of the group outranks it. |
| `FileDedup.GroupRows` | airwallex_erpnext/patches/v1_0/deduplicate_receipt_file_records.py:39-47 | The loop collects the complete rows by key. |
| `FileDedup.FileTable.Execute` | airwallex_erpnext/patches/v1_0/deduplicate_receipt_file_records.py:39-56 | The patch removes exactly the rows of complete groups that are not kept. |
| `FileDedup.OneCopyRemains` | airwallex_erpnext/patches/v1_0/deduplicate_receipt_file_records.py:49-56 | Of each complete key exactly one row remains, of greatest rank. |
| `FileDedup.OneRowAFile` | airwallex_erpnext/patches/v1_0/deduplicate_receipt_file_records.py:20-64 | By the rows' own fields: of private bank-transaction files with target, hash and url one row remains for each, none removed says more of its origin, and all other rows remain. |
| `FileDedup.OthersStay` | airwallex_erpnext/patches/v1_0/deduplicate_receipt_file_records.py:20-37 | Rows outside the query or with an incomplete key stay, and none is changed. |
| `FileDedup.UrlsStay` | airwallex_erpnext/patches/v1_0/deduplicate_receipt_file_records.py:9-17 | Every file that some row named is still named by one. |
| `FileDedup.SecondRunRemovesNothing` | airwallex_erpnext/patches/v1_0/deduplicate_receipt_file_records.py:49-56 | A second run removes nothing, whatever the order of the rows. |

## Left out

- Binary floats: amounts and confidences that the code converts to floats at the document boundary are kept exact, and decimals are not cut to 28 digits.
- Frappe: permissions, caches, hooks, background jobs and the rollback of a failed job; each write is taken as made. The host's submit and cancel follow tests/frappe_stub.py.
- Rows of a query come in the order of their names where the code does not ask for another; row limits (500 subscriptions, 5000 files, 100 stale events) are taken as not reached. A listing cut at max_records_per_sync is a cut call in `SyncCursor`; which of its records it lists is not modelled.
- Payments: one settings document, and payment ids that are distinct within a bill for the statements about passes; the invoice exists. A deleted or missing invoice makes the code raise.
- PaymentModel.AmountOf: amounts are numbers, so a zero counts as missing; the text of a zero, which Python takes for present, is not modelled.
- Payments: `modified` stamps, remarks and the values a dry run reports with its verdict.
- Convergence is stated for fixed settings, rates, posting date and bill; a payment without a date would be dated anew each day.
- Webhook events: the reaper's settings_name argument is modelled, though no caller in the repository passes it; a surplus job that finds an event in processing is part of `WebhookInterleaving` only.
- Webhook events: signatures, payload parsing, stored results and timestamps other than `modified`. Whole jobs are atomic in the budget theorems and taken apart in the booking theorems.
- Bills and reimbursements as handlers: only the expense handler's booking is modelled under interleaving.
- Subscriptions: pagination of the listing and the metadata of failed runs; desired_events is a given set of events.
- Rules: whether a rule matches a record (text, case folding, regular expressions) is a given predicate.
- Cursor: time zones; records created while a run lists are counted as listed by a later run only.
- Pagination: a server that changes between requests, and cursors that are not strings (the code compares them before conversion).
- Banking: account balances, mapped dimensions and payload hash other than as one digest; posting date and description of a transaction; accounting documents and sync marks of an expense.
- Receipts: mail retrieval, text scoring and the log of matches; content hashes are given.
- ReceiptFiles.Store.AttachSelected: a file whose content cannot be stored counts as failed; a failure between storing the file and writing its ids is not modelled.
- FileDedup.FileTable.Execute: groups are visited in no particular order, which does not matter for what is removed.
- Text normalisation, chunking and the wrapper that finds an invoice by bill id: one-line helpers.
- HTTP, authentication and error mapping, migrations, workspace and field installation, transfers, FX, balances, reversals, reconciliation reports: field copying or single guards.
