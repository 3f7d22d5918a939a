# Stock, notifications, sessions and membership of the Stock Master backend

This project models the stateful services of the API and proves what their comments promise over whole
runs. Each module is one service or one protocol.

The database is a set of sequences and maps. A transaction is one step. A read followed by a conditional
write is two steps, with any other step in between, and each request carries the instant it captured
itself. A crash falls between two single writes. A unique index is the key of a map, or a guard that
refuses a write. Money and quantities are exact `real` numbers (only a new sale has to be of whole units),
instants are `int` milliseconds, tokens, passwords and links are abstract numbers that never collide.

- `Books`, `Ledger`, `Profit`, with `Sums`: products, sales and frozen adjustments; the requests that
  change them; the stock-based and the sale-based view of profit.
- `EventKeys`, `Outbox`, `Dispatch`, `Replays`, `Distribution`, `Dispatcher`: events, notifications and
  deliveries; a distribution as a list of atomic upserts; crash, replay and interleaving; what one
  distribution leaves; the service whose loops make its list.
- `BatchSelection`, `Lanes`: which jobs a pass takes, and the parallel lanes that handle them.
- `Notifications`, `PushDelivery`: the life of a notification and of a delivery afterwards.
- `FixedWindow`, `LinkIssuance`, `EmailVerification`, `InvitationLinks`: cooldowns, restarting windows and
  one-shot links under concurrent requests.
- `SessionVersion`, `Sessions`: the version that ties every token to the password in force.
- `Membership`: the single owner, and rights that members can pass on but never multiply.
- `SignedUrlCache`, `ReportLimiter`: two objects updated in place.
- `HistoryRecovery`, `RecoveryInBooks`, `Reconciliation`: the backfill of lost history, its place in the
  ledger, and the check of the monthly report.

Where a service works step by step, a class or a method with loops carries its fields and loops, and its
contract ties them to a specification function; the lemmas are about runs of those functions. Lemmas
whose name ends in `Effect` or `Exactly` tell what a request does, and when, on the documents themselves:
every limit, date and outcome is written out there.

Five promises do not hold of the code as stated; for each the exact condition is proved.

- The issuance window is called a sliding hour (`email-verification.service.ts`, line 40). Windows restart:
  nine links in one hour are possible (`LinkIssuance.NineInOneHour`), never ten. Five in every hour holds
  exactly when each link comes an hour after the fifth before it (`EmailVerification.HourlyLimitExactly`,
  `Sessions.HourlyLimitExactly`, `LinkIssuance.SlidingHourAfterCommit` before a write).
- A busy organisation is said never to block a quiet one. The second query is limited too, so a quiet one
  can be left out (`BatchSelection.FairnessFailsOverQueue`); `BatchSelection.UnfairExactly` tells when.
- A delivery is said to be sent by one pass. Later writes do not check who holds the lock, so with two
  processes a slow sender can put a delivery back to wait with any number of attempts made, or bring a
  retry back (`PushDelivery.WaitingAfterAnyAttempts`, `RetryMovedBack`). The holder of the lock always keeps
  the rules (`HolderRetriesInTime`); `WaitsWithFiveExactly` and `BroughtBackExactly` tell when another
  sender can break them.
- Members are meant never to extend rights beyond what is granted, yet an invitation of the owner that was checked and
  not yet written can still land (`Membership.DraftOfOwnerLands`): the only exception (`GrantsExactly`).
- The signed-URL cache is said to keep nothing of a failure: exactly when the signing function does not
  throw before its first pause, which its one caller never does (`SignedUrlCache.FreedUnlessThrownAtOnce`).

## Model

| member | source | states |
|---|---|---|
| Ledger.StockConservation | api/src/products/products.service.ts:320-991 | Over every run of creation, price change, restock, trash, restore, sale, correction, cancellation, recovery and purge: each existing product keeps a non-negative stock, what left its stock is exactly what its sales sold, and no purge finds a drift to freeze |
| Ledger.StockWithinBounds | api/src/products/products.service.ts:887-991 | After any run the remaining stock lies between zero and everything ever put in stock |
| Ledger.StepKeepsSound | api/src/sales/sales.service.ts:204-331 | One request of any kind keeps stock and sales in balance: the stock change and the sale are one transaction |
| Ledger.StepKeepsCostsKnown | api/src/products/products.service.ts:820-851 | No request loses the cost of a sale whose product is gone |
| Ledger.CancelUndoesSell | api/src/sales/sales.service.ts:509-550 | Cancelling a sale gives back the very books of before it, but for the identifier used |
| Ledger.CorrectionUndone | api/src/sales/sales.service.ts:374-437 | A correction of quantity and price can be corrected back exactly |
| Ledger.ValidRequestsTakeEffect | api/src/sales/dto/create-sale.dto.ts:26-35 | Whatever validation lets through takes effect unless refused; an invalid or refused request changes nothing |
| Ledger.SellEffect | api/src/products/products.service.ts:943-991 | A sale is refused with "not found" exactly for a product absent, purged or in the trash, with the remaining quantity exactly when too little remains; otherwise it adds one sale with the fields given and moves stock, units sold and revenue by its quantity |
| Ledger.CorrectionEffect | api/src/sales/sales.service.ts:374-437 | A correction stores exactly the quantity and the price given, keeping those not given and every other field; units sold, revenue and the stock of an existing product move by the difference; it is refused exactly without its sale, or without the stock |
| Ledger.CancelEffect | api/src/sales/sales.service.ts:509-550 | A cancellation deletes its sale alone and moves stock, units sold and revenue back by it |
| Ledger.ProductEffects | api/src/products/products.service.ts:481-668 | Creation, form, trash and restore: which fields of which product change, and to what; "not found" otherwise |
| Ledger.PurgeEffect | api/src/products/products.service.ts:748-879 | A purge deletes the product, freezes its name and cost on its unmarked sales, and records the difference between stock and sales exactly when there is one |
| Ledger.RecoverEffect | api/src/sales/sale-history-backfill.ts:283-298 | A recovery marks and fills exactly the unmarked sales of a product that is gone, and keeps what it did not find |
| Ledger.Store.CreateProduct | api/src/products/products.service.ts:320-401 | A new product starts with its whole initial quantity remaining |
| Ledger.Store.UpdateProduct | api/src/products/products.service.ts:481-668 | Price change and added stock: initial and remaining quantity grow together |
| Ledger.Store.SetTrashed | api/src/products/products.service.ts:670-746 | Trash and restore touch nothing but the mark |
| Ledger.Store.DecrementStock | api/src/products/products.service.ts:943-991 | A sale takes stock only if enough remains; otherwise nothing changes and the remaining quantity is reported |
| Ledger.Store.AdjustStock | api/src/products/products.service.ts:887-921 | A correction or cancellation gives or takes the difference; a missing product is passed over |
| Ledger.Store.CreateSale | api/src/sales/sales.service.ts:204-331 | Stock and sale change together or not at all |
| Ledger.Store.UpdateSale | api/src/sales/sales.service.ts:374-437 | The difference in quantity goes through the stock; a refusal leaves the books untouched, and so does a sale outside the seller's own when the scope asks for it |
| Ledger.Store.RemoveSale | api/src/sales/sales.service.ts:509-550 | Cancellation returns the quantity and deletes the sale, within the same scope |
| Ledger.Store.PermanentDelete | api/src/products/products.service.ts:748-879 | Purge of a product: its sales keep name and cost, a drift between stock and sales becomes an adjustment, the document goes |
| Books.GroupByProduct | api/src/analytics/analytics.service.ts:353-462 | Grouping the sales by product loses none and counts none twice |
| Books.MonthOf | api/src/analytics/month-range.ts:8-11 | Each covered date has a month that holds it, start included and end excluded |
| Books.ExactlyOneMonth | api/src/analytics/month-range.ts:18-36 | A sale matches the filter of exactly one month, that of its effective date |
| Books.SplitByMonth | api/src/analytics/month-range.ts:8-36 | The monthly filters partition the sales: monthly totals of any measure add up to the total of all periods |
| Profit.TwoViews | api/src/analytics/analytics.service.ts:210-264 | For any books and any calendar that covers the sales: the stock-based profit is unknown exactly when some monthly one is, and when known it is the sum of the sale-based monthly gains less the drift and the frozen adjustments |
| Profit.RunKeepsViewsEqual | api/src/analytics/analytics.service.ts:150-264 | After any run from empty books every profit is known and the stock-based one is the sum of the sale-based monthly gains |
| Profit.BalancedHasNoDrift | api/src/analytics/analytics.service.ts:271-290 | In balanced books the drift term vanishes |
| Profit.UnknownTogether | api/src/analytics/analytics.service.ts:210-264 | The all-period profit is unknown exactly when some month is |
| Profit.PurgeKeepsAllPeriodsProfit | api/src/products/products.service.ts:748-879 | Permanent delete leaves net profit, margin and unknown status of the all-period view exactly unchanged, even when stock and sales have drifted apart |
| Profit.PurgeKeepsRows | api/src/analytics/analytics.service.ts:353-462 | Permanent delete leaves the name, units, revenue, number of sales and gain of every ranking row unchanged for every period filter; only the deleted mark and the remaining stock of its own row change |
| Profit.PurgeNeedsTheMark | api/src/products/products.service.ts:820-851 | Concrete books in which a sale of an existing product already carries the mark: there the purge moves the profit |
| Profit.UpdateRevaluesSoldUnits | api/src/analytics/analytics.service.ts:210-234 | A new purchase price moves the cost of sales by the price difference times the units that left the stock; added stock moves nothing |
| Profit.SellMovesProfit | api/src/analytics/analytics.service.ts:210-234 | A sale adds its revenue, dated when it happened, and the cost of its units at the current purchase price |
| Profit.TrashKeepsProfit | api/src/analytics/analytics.service.ts:150-200 | Trashing and restoring move no figure |
| Profit.RowsAddUp | api/src/analytics/analytics.service.ts:377-379 | The rows of a period hold all its units, all its revenue and all its sales, once each |
| Profit.RowMeaning | api/src/analytics/analytics.service.ts:398-445 | A product has a row exactly when the period has a sale of it, by its own date; deleted mark and stock follow the product; the gain is unknown exactly when the product is gone and one of these sales lost its cost, else it is the revenue less the cost of each sale |
| Profit.RowNameMeaning | api/src/analytics/analytics.service.ts:364-376 | A row is named after its product while that exists, then by the largest frozen name, then by the name its most recently created sale recorded |
| Profit.MarginsOfTheViews | api/src/analytics/analytics.service.ts:210-264 | Both views give the margin of their own net profit in per cent of the revenue of their period, and none without revenue |
| BatchSelection.LotSize | api/src/push/push-dispatcher.service.ts:496-537 | The lot has exactly min(50, pending) jobs |
| BatchSelection.LotHasNoDuplicates | api/src/push/push-dispatcher.service.ts:496-537 | The lot holds no job twice and only pending jobs |
| BatchSelection.LotIsPrefixPerOrganization | api/src/push/push-dispatcher.service.ts:496-537 | The lot is in date order, and for each organisation a prefix of its own queue in queue order |
| BatchSelection.OldestIsSelected | api/src/push/push-dispatcher.service.ts:496-537 | The oldest pending job is always in the lot |
| BatchSelection.QuotasComeFirst | api/src/push/push-dispatcher.service.ts:503-533 | Every organisation gets its quota, or all that was fetched for it; more than the quota goes only to one that exceeded it in the first query |
| BatchSelection.ExcessIsFiller | api/src/push/push-dispatcher.service.ts:530-533 | An organisation exceeds its quota exactly when the filler was used |
| BatchSelection.FairExactlyWhenFetched | api/src/push/push-dispatcher.service.ts:487-537 | The share is fair over the whole queue exactly when no filler was used or the quota of every organisation had been fetched: the step towards the condition on the queue |
| BatchSelection.UnfairExactly | api/src/push/push-dispatcher.service.ts:487-537 | Told from the queue: the share is unfair over the whole queue if and only if the first query sets jobs aside and the second is cut by its limit while it brings more than its quota of one organisation and less than its quota of another |
| BatchSelection.FairWhenQueryUncut | api/src/push/push-dispatcher.service.ts:515-533 | A second query that stops before its limit is enough for fairness over the whole queue |
| BatchSelection.FairnessFailsOverQueue | api/src/push/push-dispatcher.service.ts:487-537 | With the production limits: fifty, forty and one job of three organisations leave the single job out while the first organisation takes more than its quota |
| BatchSelection.ShareOut | api/src/push/push-dispatcher.service.ts:503-514 | The counting loop takes for each organisation its first jobs up to the quota, given the jobs already selected |
| BatchSelection.SortByDate | api/src/push/push-dispatcher.service.ts:535-535 | The selection is sorted by date, stably |
| BatchSelection.FillUp | api/src/push/push-dispatcher.service.ts:530-533 | The excess fills the free places in order and no more |
| BatchSelection.SelectJobs | api/src/push/push-dispatcher.service.ts:496-537 | The two queries and three loops compute the lot the results above are about; more work is announced when the first query was full |
| Lanes.GroupByOrganization | api/src/push/push-dispatcher.service.ts:551-557 | Grouping puts each organisation of the lot once, with its jobs in lot order |
| Lanes.OneLanePerOrganization | api/src/push/push-dispatcher.service.ts:539-570 | At any moment of any interleaving no two lanes work for one organisation |
| Lanes.InOrderAtMostOnce | api/src/push/push-dispatcher.service.ts:539-570 | At any moment, halted or failed lanes included, each organisation has had a prefix of its jobs handled in lot order, each job at most once |
| Lanes.EveryJobOnce | api/src/push/push-dispatcher.service.ts:549-580 | Without halt and without failure the lanes handle every job of the lot exactly once |
| Lanes.FailureSkipsOnlyItsGroup | api/src/push/push-dispatcher.service.ts:558-580 | Without a halt, if some lane ends normally, an organisation is handled entirely unless a lane failed on it, and then only what follows the failure is left |
| Lanes.LaneCount | api/src/push/push-dispatcher.service.ts:571-571 | As many lanes as configured, no more than there are organisations, one at least |
| Lanes.NothingBeginsAfterHalt | api/src/push/push-dispatcher.service.ts:560-568 | Over every later run of a halting service no job begins |
| Lanes.BeginEffect | api/src/push/push-dispatcher.service.ts:558-569 | A lane hands over the very next job of its organisation and moves no other lane |
| Lanes.ShiftEffect | api/src/push/push-dispatcher.service.ts:558-560 | A lane done with its organisation takes the next one off the queue, or ends |
| Lanes.LanesComeToAnEnd | api/src/push/push-dispatcher.service.ts:549-580 | Any interleaving makes at most two effective steps for each job, one for each organisation and one for each lane, and until every lane has ended some lane can go on without a failure or a halt |
| EventKeys.WindowEndFollows | api/src/push/push-dispatcher.service.ts:657-661 | The window end W of an event satisfies t < W <= t + 60 000 and is an aligned minute |
| EventKeys.DecimalRoundTrip | api/src/push/push-dispatcher.service.ts:686-695 | An integer written into a key and read back is the same integer, negative ones included, and brings no colon |
| EventKeys.GroupWindowReadBack | api/src/push/push-dispatcher.service.ts:686-695 | The window start read from the end of a group key is the one written into it, whatever the other parts of the key hold |
| EventKeys.GroupKeyInjective | api/src/notifications/member-activity.ts:57-69 | Two activities share a group exactly when organisation, author, entity, action and window agree |
| EventKeys.DigestKeyInjective | api/src/push/push-dispatcher.service.ts:657-661 | Two sales share a digest exactly when organisation and window agree |
| EventKeys.KeysAsStored | api/src/notifications/member-activity.ts:57-69 | The two keys of an event of the second minute, written out |
| Dispatch.GroupIsNoEvent | api/src/push/push-outbox.service.ts:52-168 | The key of a digest or group is never the key of a recorded event |
| Dispatch.CrashSafe | api/src/push/push-dispatcher.service.ts:583-649 | For any crashes between writes, restarts and interleavings: once each event has been distributed to the end with fixed eligibility, the database equals one uninterrupted distribution, up to the times of the attempts |
| Replays.ReplayWritesNothing | api/src/push/push-dispatcher.service.ts:583-627 | After a crash at any write and then any run of other writes, readings and sendings, a new attempt changes nothing up to the point of the crash |
| Replays.AfterExtends | api/src/push/push-dispatcher.service.ts:583-649 | No run of writes, readings and sendings takes away anything recorded |
| Replays.CrashSafeAmongOthers | api/src/push/push-dispatcher.service.ts:583-649 | Crash safety with readers and senders interleaved anywhere: the same final database, but for times, readings and sendings |
| Dispatch.RecordedIsUnion | api/src/push/push-dispatcher.service.ts:583-649 | Recipients and devices changing between attempts or not: the notifications and deliveries after any history are those before it and those of its writes |
| Dispatch.SameWritesSameState | api/src/push/push-dispatcher.service.ts:425-461 | Coherent upserts and conditional updates lead to one state in any order and with any repetition |
| Dispatch.CompletedReachesAll | api/src/push/push-dispatcher.service.ts:583-649 | A completed distribution, however interrupted before, has notified every recipient, planned a delivery for every eligible device and closed the job |
| Dispatch.ClosedAsDecided | api/src/push/push-dispatcher.service.ts:587-627 | Over every history a distributed job ends as decided: cancelled with its reason when irrelevant; else dispatched, with "push-disabled" exactly when push is off, "push-expired" exactly when it is on and the event too old, and otherwise the number of devices |
| Dispatch.OnlyRecipientsAreNotified | api/src/notifications/notification-center.service.ts:248-361 | Every new notification is of a recipient of a relevant event |
| Dispatch.OneDeliveryPerMinute | api/src/push/push-dispatcher.service.ts:651-676 | Two sales reach a device by one delivery exactly when organisation and minute agree; it is due at the window end |
| Dispatch.OneDeliveryPerActivityGroup | api/src/push/push-dispatcher.service.ts:678-710 | The same for activities, per author, entity and action |
| Dispatch.GroupIsDueAtWindowEnd | api/src/push/push-dispatcher.service.ts:636-710 | Whatever was replayed, a new delivery of a sale digest or of an activity group is first due at the end of its minute, and comes from an event of that very group that reaches the device |
| Dispatch.HistoryKeepsGroups | api/src/push/push-dispatcher.service.ts:662-676 | A stored digest or group always is the one its events compute, so reading it back is safe |
| Dispatcher.Service.UpsertNotification | api/src/notifications/notification-center.service.ts:255-280 | The upsert on event and user inserts once and never rewrites |
| Dispatcher.Service.UpsertGroup | api/src/notifications/notification-center.service.ts:315-351 | The filtered upsert counts an action once; an action already counted meets the unique index and changes nothing |
| Dispatcher.Service.CreateFromJob | api/src/notifications/notification-center.service.ts:248-287 | One upsert for each recipient in order; the result is the number of notifications created |
| Dispatcher.Service.CreateActivityFromJob | api/src/notifications/notification-center.service.ts:297-361 | The same for groups, passing over duplicates |
| Dispatcher.Service.RecordJob | api/src/push/push-dispatcher.service.ts:425-461 | Upsert on the event key: recorded once, never modified |
| Dispatcher.Service.RecordGroup | api/src/push/push-dispatcher.service.ts:657-710 | The group read back after its upsert is the one computed from the event |
| Dispatcher.Service.UpsertDelivery | api/src/push/push-dispatcher.service.ts:723-748 | One delivery for each event and device |
| Dispatcher.Service.CloseJob | api/src/push/push-dispatcher.service.ts:750-762 | Closing is conditional on a pending job |
| Dispatcher.Service.PlanDeliveries | api/src/push/push-dispatcher.service.ts:629-649 | Group first, then one delivery for each device; none of it without a device |
| Dispatcher.Service.DispatchOne | api/src/push/push-dispatcher.service.ts:583-626 | The loops and branches make exactly the planned list of atomic writes, in order |
| Distribution.JobEffect | api/src/push/push-dispatcher.service.ts:583-627 | How a pending job is closed, with every age written out: cancelled with its reason, "push-disabled", "push-expired" past six hours (stock), twelve (report) or one (the rest, but for the end of a subscription), else with the number of devices; a job no longer pending is left alone |
| Distribution.PushReachesInTime | api/src/push/push-dispatcher.service.ts:764-767 | With push on, a relevant event reaches every device exactly when its age is within that limit; otherwise its job says so and no delivery changes |
| Distribution.DeliveryEffect | api/src/push/push-dispatcher.service.ts:629-649 | Every delivery made is one that waits, untried, for the owner of an eligible device, due at the end of its minute for a sale or an activity and at once for the rest; those that existed stay |
| Distribution.GroupJobEffect | api/src/push/push-dispatcher.service.ts:651-710 | Beside its own, a distribution records one job at most, that of the minute or the group, exactly when a sale or an activity is pushed in time to some device |
| Distribution.NoticeEffect | api/src/notifications/notification-center.service.ts:248-361 | Each recipient of a relevant event is notified once with the content of its category, or has the action counted once in its group; every other notification stays as it was |
| Notifications.RunKeepsSound | api/src/notifications/notification-center.service.ts:297-361 | For any replays and readings: the count is the number of distinct actions, targets are no more than the count, read and expiry dates stand together, the expiry being the reading plus the retention |
| Notifications.GroupSumsUpItsActions | api/src/notifications/notification-center.service.ts:309-352 | After any multiset of replays and readings a group holds exactly the distinct actions and targets applied and the latest of their dates |
| Notifications.FirstReadingIsKept | api/src/notifications/notification-center.service.ts:439-453 | Outside groups the first reading, and with it the expiry, is never moved |
| Notifications.ReadingEffect | api/src/notifications/notification-retention.ts:14-34 | After any run a reading dates exactly an unread notification, with its expiry two, seven or thirty days later by category, and touches nothing else |
| Notifications.UnreadExactlyWhenNew | api/src/notifications/notification-center.service.ts:317-343 | Adding an action makes a group unread exactly when the action was not counted yet |
| Notifications.Center.MarkRecordRead | api/src/notifications/notification-center.service.ts:443-453 | Only an unread notification is dated, with the retention of its category |
| Notifications.Center.ReadAll | api/src/notifications/notification-center.service.ts:483-500 | Dates every listed unread notification, touches no other, and counts what it dated |
| PushDelivery.FinalForGood | api/src/push/push-dispatcher.service.ts:1059-1071 | A sent, abandoned or skipped delivery never changes again |
| PushDelivery.CallsAreBounded | api/src/push/push-dispatcher.service.ts:908-1057 | With any number of senders, slow or crashed: transport calls do not exceed reservations, which do not exceed five plus the takeovers of expired locks |
| PushDelivery.DelayIsInTable | api/src/push/push-dispatcher.service.ts:1030-1035 | The delay looked up for a retry is in range and is that of its attempt |
| PushDelivery.HolderRetriesInTime | api/src/push/push-dispatcher.service.ts:1030-1050 | Over every interleaving of any senders: a retry ordered by the holder of the lock leaves at most four attempts made and is due later than the attempt it follows was, by its whole delay |
| PushDelivery.HoldersKeepTheBound | api/src/push/push-dispatcher.service.ts:1030-1050 | Whenever only holders of the lock answer, takeovers and crashes left free, a waiting delivery has at most four attempts and is never due before its first date |
| PushDelivery.WaitsWithFiveExactly | api/src/push/push-dispatcher.service.ts:1035-1048 | The bound can be broken without a new reservation if and only if the delivery is being sent for the fifth time or more while a sender of one of the first four attempts is alive |
| PushDelivery.BroughtBackExactly | api/src/push/push-dispatcher.service.ts:1035-1048 | A retry can be brought back to the due date or before if and only if a live sender reserved long enough ago for that, and it is never the holder of the lock |
| PushDelivery.OneProcess | api/src/push/push-dispatcher.service.ts:1030-1050 | With one process, as deployed, the holder is the only live sender: a waiting delivery has at most four attempts and each retry is due strictly later than the attempt it follows was |
| PushDelivery.RunKeepsOwned | api/src/push/push-dispatcher.service.ts:914-936 | With one process the live sender always is the last to have reserved, and due dates never go back |
| PushDelivery.FiveAttemptsThenGivenUp | api/src/push/push-dispatcher.service.ts:107-117 | A transport that never answers is called five times, after the four listed delays, then the delivery is abandoned |
| PushDelivery.WaitingAfterAnyAttempts | api/src/push/push-dispatcher.service.ts:1035-1048 | With two processes the bound on a waiting delivery fails for every number of attempts, since later writes do not check who holds the lock |
| PushDelivery.RetryMovedBack | api/src/push/push-dispatcher.service.ts:1035-1048 | With two processes a slow sender can bring a retry back before the attempt under way |
| PushDelivery.Sender.ReserveOne | api/src/push/push-dispatcher.service.ts:913-936 | Conditional reservation of a due delivery, returned as updated |
| PushDelivery.Sender.Finish | api/src/push/push-dispatcher.service.ts:1059-1071 | A final status is written only on a delivery being sent |
| PushDelivery.ReservationEffect | api/src/push/push-dispatcher.service.ts:914-936 | A reservation succeeds exactly on a delivery that is due or whose lock expired, for one minute and one attempt more, during which no other succeeds |
| PushDelivery.AnswerEffect | api/src/push/push-dispatcher.service.ts:1004-1057 | What an answer writes, from any live sender: sent on 200 to 299; put back by half a minute, two, ten or thirty on silence, 429 and 500 upwards while the attempt is one of the first four; given up otherwise; nothing once the delivery is no longer being sent |
| PushDelivery.OtherEffects | api/src/push/push-dispatcher.service.ts:955-960 | A skip is final and only before the call, a call counts once for each reservation, a crash writes nothing |
| PushDelivery.SendingEffect | api/src/push/push-dispatcher.service.ts:908-1057 | The steps of one sending that goes through, and the sending as one call, leave the same delivery: sent, waiting with its exact due date, failed or skipped, told from the code and the attempts made |
| PushDelivery.Sender.SendOne | api/src/push/push-dispatcher.service.ts:908-1057 | One sending alone ends as the transport code and the attempt number decide, and touches no other delivery |
| FixedWindow.AdmitKeeps | api/src/email-verification/email-verification.service.ts:226-237 | Admitting by a restarting window keeps the log of admissions split into windows of at most the limit |
| FixedWindow.WindowHolds | api/src/reports/report-generation-limiter.ts:86-128 | A window holds at most the limit and less than its length of time |
| FixedWindow.AnyInterval | api/src/email-verification/email-verification.service.ts:36-42 | Any half-open interval of the window length holds at most 2L - 1 admissions |
| FixedWindow.SlidingExactly | api/src/email-verification/email-verification.service.ts:39-42 | The limit holds of every interval of the window length if and only if each admission comes a window after the one L places before it |
| FixedWindow.AdmitsExactly | api/src/email-verification/email-verification.service.ts:226-237 | An event is admitted exactly when the window of the last one is over or has a place left |
| LinkIssuance.CommitKeeps | api/src/email-verification/email-verification.service.ts:239-262 | A conditional write that goes through finds the very fields its request read: the lock on the last emission also protects window and counter |
| LinkIssuance.MovedForGood | api/src/password-reset/password-reset.service.ts:200-225 | A request overtaken once never writes |
| LinkIssuance.EmissionsAreBounded | api/src/password-reset/password-reset.service.ts:177-225 | Under every interleaving emissions are a minute apart at least, five in a window, nine in any hour |
| LinkIssuance.NineInOneHour | api/src/email-verification/email-verification.service.ts:36-42 | Ten concrete requests of which nine are served within one hour: the window restarts, it does not slide |
| LinkIssuance.SlidingHourAfterCommit | api/src/email-verification/email-verification.service.ts:39-42 | When five per sliding hour does hold: one more emission keeps it if and only if the fifth-last emission is at least an hour old at that instant |
| LinkIssuance.AdmittedExactly | api/src/password-reset/password-reset.service.ts:183-202 | A request passes exactly when nothing was emitted, or the last emission is a minute old and its window is an hour old or holds fewer than five |
| LinkIssuance.WrittenExactly | api/src/password-reset/password-reset.service.ts:204-225 | It writes exactly when nothing was emitted since it read |
| EmailVerification.IssuanceIsBounded | api/src/email-verification/email-verification.service.ts:205-262 | The same bounds for verification links from registration on |
| EmailVerification.HourlyLimitExactly | api/src/email-verification/email-verification.service.ts:39-42 | After any run: at most five links in every hour if and only if each link came an hour after the fifth before it |
| EmailVerification.HourlyLimitAfterWrite | api/src/email-verification/email-verification.service.ts:239-262 | A link written after any run keeps that limit if and only if the fifth-last one is an hour old |
| EmailVerification.VerifiedForGood | api/src/email-verification/email-verification.service.ts:165-217 | A verified account keeps its date and is never given a link again |
| EmailVerification.ConfirmationIsOneShot | api/src/email-verification/email-verification.service.ts:165-197 | Only the newest link in its time confirms, and nothing confirms afterwards |
| EmailVerification.IssuanceEffect | api/src/email-verification/email-verification.service.ts:205-237 | After any run a link is prepared exactly for an unverified account within cooldown and quota |
| EmailVerification.WriteEffect | api/src/email-verification/email-verification.service.ts:239-262 | It is written exactly while the account is unverified and nothing was sent since, and lives a day |
| EmailVerification.ConfirmEffect | api/src/email-verification/email-verification.service.ts:165-197 | After any run it verifies exactly as the link of the account, less than a day old |
| EmailVerification.EmailVerificationService.PrepareIssuance | api/src/email-verification/email-verification.service.ts:205-237 | First half: cooldown and quota decided on what was read |
| EmailVerification.EmailVerificationService.WriteLink | api/src/email-verification/email-verification.service.ts:239-262 | Second half: one write, on condition that the account is unverified and the last emission unmoved |
| EmailVerification.EmailVerificationService.ConfirmLink | api/src/email-verification/email-verification.service.ts:165-197 | Confirmation sets the date and spends the link in one write |
| InvitationLinks.RunKeeps | api/src/organizations/invitation-acceptance.service.ts:471-542 | Under every interleaving at most five account links for an invitation, a minute apart, none outliving a day or the invitation; the recipient quota is held once for each send and each request under way |
| InvitationLinks.OneSendPerReading | api/src/organizations/invitation-acceptance.service.ts:514-535 | Of the requests that read the invitation before a send only the sender gets through |
| InvitationLinks.UsedForGood | api/src/organizations/invitation-acceptance.service.ts:304-337 | Once taken or revoked an invitation sends nothing and opens nothing |
| InvitationLinks.LookEffect | api/src/organizations/invitation-acceptance.service.ts:476-491 | A request goes on exactly while the invitation is open, fewer than five links were sent and the last one is a minute old |
| InvitationLinks.TakeEffect | api/src/organizations/invitation-acceptance.service.ts:482-506 | It takes a place of the quota exactly without an account for the address and with the quota allowing it |
| InvitationLinks.WriteEffect | api/src/organizations/invitation-acceptance.service.ts:508-542 | It sends exactly when the invitation is still open and no link was sent since it read, else gives its place back; the link lives a day or as long as the invitation |
| InvitationLinks.UseEffect | api/src/organizations/invitation-acceptance.service.ts:304-337 | The account is created exactly with the newest link, within its day and while the invitation is open |
| SessionVersion.FilterFindsWhatWasRead | api/src/auth/session-version.ts:18-53 | The filter built from a version read finds the document again exactly when the field was absent, null or a version |
| SessionVersion.FilterIsVersionTest | api/src/auth/session-version.ts:48-53 | On such fields the filter and the comparison are one test |
| SessionVersion.CurrentExactly | api/src/auth/session-version.ts:18-46 | A claim is current exactly when it is the stored number, or absent while that is 0; anything but a safe integer from 0 up is stored as 0 |
| SessionVersion.BumpRevokes | api/src/auth/session-version.ts:18-46 | Writing version + 1 leaves only tokens of that version current, if and only if it is still a safe integer |
| Sessions.SessionLineage | api/src/auth/auth.service.ts:474-545 | Under every interleaving of login, switch, exchange and reset, an accepted token descends from a login that verified the password still in force |
| Sessions.AccessEffect | api/src/auth/auth.service.ts:474-545 | After any run: a login needs the password in force; a token is accepted exactly while no reset came since its login; one that presents it signs another exactly after being accepted again, and not for a limited token without a subscription |
| Sessions.ScopeFollowsSubscription | api/src/auth/auth.service.ts:561-597 | Over every run a token opens the application exactly when it was signed for an active subscription, and one obtained with a limited token was signed for an active one |
| Sessions.OneVersionPerReset | api/src/password-reset/password-reset.service.ts:115-153 | The version is the number of successful resets and no link resets twice |
| Sessions.ResetEffect | api/src/password-reset/password-reset.service.ts:136-153 | A confirmed reset changes the password, raises the version by one, spends the link, and leaves no accepted token and no other confirmation that can go through |
| Sessions.ConfirmationEffect | api/src/password-reset/password-reset.service.ts:115-153 | After any run a confirmation finds its link exactly when it is the account's and was requested less than an hour before, and replaces the password exactly when that still holds of the instant it read and no reset came in between |
| Sessions.ExpiredLinkIsDead | api/src/password-reset/password-reset.service.ts:127-134 | No step of a confirmation an hour or more after the request of its link changes anything |
| Sessions.LinkEffect | api/src/password-reset/password-reset.service.ts:204-225 | A link is installed exactly when neither an emission nor a reset came since its request read, for one hour from the clock of the request |
| Sessions.RequestEffect | api/src/password-reset/password-reset.service.ts:177-202 | After any run a request is prepared exactly within cooldown and quota |
| Sessions.PreparedBeforeReset | api/src/password-reset/password-reset.service.ts:177-225 | A link prepared before a reset is never installed after it |
| Sessions.ResetLinksAreBounded | api/src/password-reset/password-reset.service.ts:177-225 | Reset links are a minute apart and at most nine in any hour over every run |
| Sessions.HourlyLimitExactly | api/src/password-reset/password-reset.service.ts:177-225 | After any run: at most five reset links in every hour if and only if each came an hour after the fifth before it |
| Sessions.HourlyLimitAfterWrite | api/src/password-reset/password-reset.service.ts:204-225 | A reset link written keeps that limit if and only if the fifth-last one is an hour old |
| Sessions.AccountStore.PrepareReset | api/src/password-reset/password-reset.service.ts:177-202 | First half of a request: cooldown and quota decided on what was read |
| Sessions.AccountStore.InstallLink | api/src/password-reset/password-reset.service.ts:204-225 | Second half: one write, on condition that last emission and session version are unmoved |
| Sessions.AccountStore.FindLink | api/src/password-reset/password-reset.service.ts:115-134 | A confirmation starts only from a live link |
| Sessions.AccountStore.ReplacePassword | api/src/password-reset/password-reset.service.ts:136-153 | Password, version and link change in one conditional write |
| Sessions.AccountStore.Verify | api/src/auth/auth.service.ts:349-416 | A login keeps the version read with the password that matched |
| Sessions.AccountStore.SignLogin | api/src/auth/auth.service.ts:561-597 | The token of a login carries that version, limited when the subscription is not active |
| Sessions.AccountStore.AssertVersion | api/src/auth/auth.service.ts:621-632 | The version is read again at the end and compared with the claim |
| Sessions.AccountStore.Derive | api/src/auth/auth.service.ts:474-545 | A derived token repeats the version of the token it came from, after the check |
| Membership.MergeKeepsUnknown | api/src/organizations/permissions.ts:120-128 | A form of an older catalogue never withdraws a permission it does not know, adds none of its own and repeats none |
| Membership.RightsOf | api/src/organizations/permissions.ts:143-200 | Owner and admin hold every right, a seller the two standard ones and those listed |
| Membership.RunKeepsSound | api/src/organizations/organizations.service.ts:344-384 | In every committed state of every run: one membership of role owner, active; one membership per user and per invitation |
| Membership.TransferNeedsItsOrder | api/src/organizations/organizations.service.ts:800-819 | The transfer passes both unique indexes, with no owner in between and one at the end, so its guard never fires; the opposite order would be refused |
| Membership.NothingIsAmplified | api/src/organizations/organizations.service.ts:422-451 | Without a step of the owner, rights held by active members, promised by pending invitations or under way never grow over any run, even once an inviter has lost its rights |
| Membership.MembersKeepRights | api/src/organizations/organizations.service.ts:675-718 | Members cannot take away a right without one of them still holding it |
| Membership.NoStepGrants | api/src/organizations/organizations.service.ts:608-721 | Once no invitation of the owner is under way, members and pending invitations together never gain a right from one step to the next |
| Membership.GrantsExactly | api/src/organizations/organizations.service.ts:422-531 | A step other than the owner's brings a right neither held nor promised if and only if it writes an invitation that was under way with it, for an address that is no active member's and has none pending |
| Membership.DraftsStayCovered | api/src/organizations/organizations.service.ts:422-531 | That condition is kept by every step of members |
| Membership.DraftOfOwnerLands | api/src/organizations/organizations.service.ts:430-531 | Reached from the foundation by one check of the owner: the invitation then written, by no one's step, grants rights, for the two halves are not one transaction |
| Membership.OwnerUpdates | api/src/organizations/organizations.service.ts:695-718 | The owner changes any other membership to the role, status and permissions asked for, with the old permissions its form does not show, and nothing else |
| Membership.MemberUpdates | api/src/organizations/organizations.service.ts:675-718 | Another member does so exactly when active, for a membership not its own nor the owner's, whose rights before and after are all its own |
| Membership.RevokedActsNoMore | api/src/organizations/organizations.service.ts:655-718 | Once suspended or revoked by the owner a member is not active, may invite and update nobody, and no request of it has any effect |
| Membership.InviteExactly | api/src/organizations/organizations.service.ts:422-451 | An invitation is begun exactly by the owner, or by an active member with members.invite whose rights include all of the invitation's |
| Membership.WriteExactly | api/src/organizations/organizations.service.ts:465-531 | It is written once, exactly when no pending one has its address and its account is no active member's |
| Membership.AcceptExactly | api/src/organizations/invitation-acceptance.service.ts:198-247 | Exactly a pending invitation of a user who is no member becomes an active membership with its role and permissions |
| Membership.WithdrawExactly | api/src/organizations/organizations.service.ts:560-581 | Exactly a pending invitation can be revoked, or expire |
| Membership.TransferExactly | api/src/organizations/organizations.service.ts:744-835 | Ownership passes exactly from the owner to another active member; the former owner stays as admin and nobody else changes |
| Membership.OrganizationService.BeginInvitation | api/src/organizations/organizations.service.ts:430-451 | An author other than the owner invites only with members.invite and within its own effective rights |
| Membership.OrganizationService.WriteInvitation | api/src/organizations/organizations.service.ts:465-531 | Written unless the address is an active member's or has a pending invitation |
| Membership.OrganizationService.Accept | api/src/organizations/invitation-acceptance.service.ts:198-247 | The invitation becomes a membership with exactly its role and permissions, or nothing changes for a member already there |
| Membership.OrganizationService.UpdateMembership | api/src/organizations/organizations.service.ts:608-721 | Accepted exactly when the guards allow it, else refused with the error of the first that does not; role, permissions and status end as requested |
| Membership.OrganizationService.TransferOwnership | api/src/organizations/organizations.service.ts:744-835 | Accepted exactly for an active owner and another active member, each refusal with its own error; the count before the commit never cancels it |
| SignedUrlCache.RunKeeps | api/src/s3/signed-url-cache.ts:19-84 | Over any interleaving of lookups and completions: entries and signatures in flight have disjoint keys, one signature per key, size within bounds, table order is recency order |
| SignedUrlCache.HitsAreFresh | api/src/s3/signed-url-cache.ts:47-62 | Every hit was signed for that very key less than reuseMs before |
| SignedUrlCache.OneSignaturePerKey | api/src/s3/signed-url-cache.ts:63-84 | Never two signatures in flight for one key |
| SignedUrlCache.CompletionEffect | api/src/s3/signed-url-cache.ts:66-84 | A failure stores nothing and frees its key; a success goes last and evicts at most the least recently used |
| SignedUrlCache.HitEffect | api/src/s3/signed-url-cache.ts:50-60 | A hit changes recency only |
| SignedUrlCache.LookupExactly | api/src/s3/signed-url-cache.ts:47-84 | After any run a lookup serves the stored URL exactly while it may be reused, else joins the signature of its key, else starts one; then it drops only what was stored for that key |
| SignedUrlCache.SignedThenServed | api/src/s3/signed-url-cache.ts:66-84 | A signature that succeeds is served to the next lookup of its key within the reuse time |
| SignedUrlCache.FreedUnlessThrownAtOnce | api/src/s3/signed-url-cache.ts:63-84 | A signature frees its key on completion if and only if it did not throw before its first pause; otherwise the key is stuck from the start |
| SignedUrlCache.StuckForGood | api/src/s3/signed-url-cache.ts:63-84 | Over every later run a stuck key stays stuck: every lookup joins the failed signature |
| SignedUrlCache.SignedUrlCache.Get | api/src/s3/signed-url-cache.ts:47-84 | Hit, joined or started as the specification says, table and map updated in place |
| SignedUrlCache.SignedUrlCache.Evict | api/src/s3/signed-url-cache.ts:72-75 | The loop drops the oldest entries down to the bound |
| SignedUrlCache.SignedUrlCache.Settle | api/src/s3/signed-url-cache.ts:66-84 | Completion stores, evicts and frees |
| ReportLimiter.LimiterHolds | api/src/reports/report-generation-limiter.ts:84-137 | After any sequence of requests and releases, repeated and reordered: counters are the slots held, within both bounds, no zero entry, and each window within its quota |
| ReportLimiter.RefusalConsumesNothing | api/src/reports/report-generation-limiter.ts:86-108 | A refusal only forgets expired windows |
| ReportLimiter.DecisionMeaning | api/src/reports/report-generation-limiter.ts:84-128 | Refused for quota exactly when the window is full, for capacity exactly when slots are, admitted otherwise |
| ReportLimiter.RetryAfterOutlivesWindow | api/src/reports/report-generation-limiter.ts:89-98 | Waiting the advertised delay outlives the window, and a second less does not |
| ReportLimiter.TenMinutes | api/src/reports/report-generation-limiter.ts:17-39 | With the production limits any ten minutes admit at most 39 for one account and shop |
| ReportLimiter.AdmittedExactly | api/src/reports/report-generation-limiter.ts:17-128 | With the production limits, after any run: admitted exactly with fewer than twenty reports in the current ten minutes, fewer than three generations and fewer than two for the shop; refused for the quota exactly when that is used up, else told to come back in ten seconds |
| ReportLimiter.AcquireEffect | api/src/reports/report-generation-limiter.ts:100-128 | An admitted request takes one slot and is logged for its key alone; a refused one takes nothing |
| ReportLimiter.ReleaseEffect | api/src/reports/report-generation-limiter.ts:116-127 | A release frees its own slot, once |
| ReportLimiter.ReportGenerationLimiter.Prune | api/src/reports/report-generation-limiter.ts:131-137 | The loop drops exactly the expired windows |
| ReportLimiter.ReportGenerationLimiter.Acquire | api/src/reports/report-generation-limiter.ts:84-128 | Decision and counters as specified, invariant kept |
| ReportLimiter.ReportGenerationLimiter.Release | api/src/reports/report-generation-limiter.ts:116-127 | Gives the slot back once |
| HistoryRecovery.FoldRecovers | api/src/sales/sale-history-backfill.ts:85-107 | For any traces the fold returns a value exactly when it is the last confirmed one and every later attempt equals it |
| HistoryRecovery.ConfirmedField.Confirm | api/src/sales/sale-history-backfill.ts:91-95 | A valid confirmation replaces the value and lifts the doubt |
| HistoryRecovery.ConfirmedField.Attempt | api/src/sales/sale-history-backfill.ts:97-101 | A valid attempt at another value raises the doubt |
| HistoryRecovery.ConfirmedLastKnown | api/src/sales/sale-history-backfill.ts:112-152 | Name and cost are folded over all traces, each kind of trace confirming or attempting as documented |
| HistoryRecovery.NameKnownExactly | api/src/sales/sale-history-backfill.ts:112-146 | A name is recovered exactly when it is the last one told by a sale, a creation or a deletion, stripped of white space, and no later change set out to write another |
| HistoryRecovery.CostKnownExactly | api/src/sales/sale-history-backfill.ts:112-146 | A cost exactly when it is the last one told by a creation, not negative, and no later change set out to write another |
| HistoryRecovery.TrimIsStripped | api/src/sales/sale-history-backfill.ts:75-76 | Trimming strips exactly the white space on both sides |
| HistoryRecovery.TracesInOrder | api/src/sales/sale-history-backfill.ts:223-270 | What is folded for a product: every audit record of it and every name its sales recorded, by date, sales first at one instant |
| HistoryRecovery.SecondRunChangesNothing | api/src/sales/sale-history-backfill.ts:174-301 | After an applied backfill nothing recoverable is left, a second run changes nothing, and what stays open is what had nothing confirmed |
| HistoryRecovery.FrozenSalesAreKept | api/src/sales/sale-history-backfill.ts:283-298 | A sale is written exactly when it has no history, its product is gone from its organisation, the run covers that one, and a name or a cost is known; and then nothing but the history |
| HistoryRecovery.Store.UpdateMany | api/src/sales/sale-history-backfill.ts:284-298 | The condition repeated in the write protects sales that have a history meanwhile |
| HistoryRecovery.Store.Backfill | api/src/sales/sale-history-backfill.ts:174-301 | Candidates are recoverable plus unrecoverable; a simulation writes nothing; applied, exactly the recoverable sales are updated; the three lists name the sales left untouched, without a name and without a cost |
| RecoveryInBooks.LedgerRecoversWhatBackfillFills | api/src/sales/sale-history-backfill.ts:223-301 | Recovering product after product in the stock ledger fills the very sales the backfill fills, with the same name and cost |
| Reconciliation.TotalsBy | api/src/reports/monthly-history.service.ts:124-138 | One pass gives the exact totals of each key |
| Reconciliation.IsConsistent | api/src/reports/monthly-history.service.ts:491-541 | Decides agreement of the list of sales with summary, ranking and sellers |
| Reconciliation.OfIsSum | api/src/reports/monthly-history.service.ts:124-138 | The totals of a key are the sums of quantities and of price times quantity over its sales, and their number |
| Reconciliation.AcceptedExactly | api/src/reports/monthly-history.service.ts:491-541 | A report is accepted exactly when the summary tells all the sales, there are as many ranking rows as products sold, and every row of ranking and sellers has a sale and tells its own: units and number exactly, revenue to a millionth |
| Reconciliation.SellerLines | api/src/reports/monthly-history.service.ts:370-390 | The ranking and, if any, one line for the sales whose seller is not ranked |
| Reconciliation.ProductLinesAddUp | api/src/reports/monthly-history.service.ts:352-368 | If the check passes and ranking ids are distinct, product lines add up to the summary in units and number of sales |
| Reconciliation.SellerLinesAddUp | api/src/reports/monthly-history.service.ts:370-390 | So do the seller lines with the orphan line |
| Reconciliation.EverySaleInOneLine | api/src/reports/monthly-history.service.ts:352-390 | Every sale is in exactly one product line, and in one seller line or the orphan line |
| Reconciliation.RepeatedIdIsNotSeen | api/src/reports/monthly-history.service.ts:515-526 | Why distinct ids are assumed: rows with a repeated id would pass the check without adding up. The ranking is grouped by id, so it never holds one |

## Left out

- One organisation at a time: isolation between organisations is by the organisation in every key and filter, and is not restated.
- Ledger.Store.CreateProduct: sections, photos and the refusal of a duplicate name are not modelled.
- Ledger.Store.UpdateProduct: moves between sections, photos and their refusals are not modelled.
- Ledger.Store.CreateSale: the trace that makes a repeated client operation return its first sale is not modelled.
- Dispatch.CrashSafe: recipients, devices, the author's name and the decision that an event is too old for push are the same in every attempt at it; what changes with them is `Dispatch.RecordedIsUnion`.
- Dispatch.CrashSafe: arrays of counted actions and targets are sets, so their order is not modelled; the identifier of a stored job is its event key.
- Replays.ReplayWritesNothing: deletion of expired notifications by the TTL index is not modelled; an event still pending after its notification was read and expired would be notified again.
- BatchSelection.SelectJobs: both queries read one snapshot of the queue, in date order, and return jobs of one date in the same order; in the source jobs can be recorded between the two queries, and ties are left to the database.
- Membership.NothingIsAmplified: expiry and address of an invitation are left to the caller of a step, so more acceptances are covered than the service allows.
- Membership.OrganizationService.Accept: address, expiry and active organisation are left to the caller; the account, the legal proof and the notification written in the same transaction are not modelled.
- Notifications.Center.ReadAll: the visibility filter (categories, expiry) is the list it is given.
- PushDelivery.Sender.SendOne: the transport is its status code or its silence, and revalidation before sending is one optional reason to skip; subscriptions disabled on 404 and 410 are not modelled.
- PushDelivery.SendingEffect: which due deliveries a pass reads, and in what order, is not modelled.
- ReportLimiter.LimiterHolds: the clock is taken as non-decreasing, as `Date` in the model clamps it; keys are pairs of account and shop.
- Reconciliation.ProductLinesAddUp: revenue is compared with the tolerance of the source, so only units and numbers of sales add up exactly.
- Reconciliation.EverySaleInOneLine: that rankings have distinct ids comes from the grouping stage of the database, which is not modelled.
- Sessions.SessionLineage: holds as long as the number of resets is a safe integer; at the largest one the stored version reads as zero (`SessionVersion.BumpRevokes`).
- Sessions.AccountStore.Verify: failure limits, the challenge and the refusal of an unverified address are not modelled.
- Snapshot anomalies of the database: transactions are taken as serialisable.
- Time zones: months are an arbitrary increasing sequence of instants.
- Rounding: JavaScript doubles are exact reals.
- The restart of subscription reminders for devices that appear later, the scans that create reminders and monthly reports, the budget of a pass and the polling timers.
- Password hashing, the persistent rate limiter (one yes or no in `InvitationLinks`), e-mail, storage and web-push calls.
- Insights, pagination, stock thresholds, spreadsheet and PDF output, sockets, controllers and guards: readings of one branch or presentation.
