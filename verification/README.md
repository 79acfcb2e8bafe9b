# The request gate and the money path, modelled and proved

This project models the parts of Thought2Build's backend whose correctness depends on more than
one function at a time, and proves what they promise over every run and every input.

| files | what they model |
|---|---|
| `SlidingWindow`, `LocalFallback`, `RedisWindow`, `Fleet` | the sliding-window limiter three times over (a dict of lists with bulk eviction, a Lua script over sorted sets with a TTL, the exact log of admissions), and several processes, which may restart, sharing one failing Redis |
| `Paths`, `Tiers`, `Dispatch`, `Gate` | path patterns, the tier table, the dispatcher that walks the tiers on Redis and again locally, and the proof that each dispatch is a run of the fleet |
| `GithubInbox`, `BillingInbox`, `AdminCorrection`, `Checkout` | four transaction protocols as small-step machines: unique indexes that block on uncommitted rows, crashes anywhere, commits and enqueues that fail with or without effect |
| `CanonicalJson`, `Payload`, `Acceptance` | the JSON printer, canonical and with default separators, a reader that undoes both, the inbox identity computed from it, and which webhooks are accepted and what they store |
| `Fence` | the nonce-keyed fence around untrusted content and a reader that follows the announced protocol |
| `UserCache` | the read-through user cache, its staleness and its invalidation |
| `Deadline`, `Cancellation` | the time arithmetic of generation jobs, and cancelling a run under its row lock |
| `BodyLimit` | the streaming body-size gate |

`Attempts` holds the one shared notion of an operation that may fail after taking effect, and
`Options` the one option type.

Code that updates objects step by step appears as classes whose methods are proved equal to a
specification function or to a run of the protocol (`FallbackMap`, `Server`,
`RateLimitMiddleware`, `Service`, `Orders`, `Checkouts`, `Auth`, `GenerationRun`, `Exchange`);
interleavings appear as runs of a state machine over those same steps.

What the proofs found about the code:

- On the fallback map a request is forwarded exactly when each tier admits it on arrival, or has
  its key among the 2,000 oldest of a map that earlier tiers of the same request fill past its cap;
  a crowd can fill the map so that a tier that would reject loses its own history to the request
  (`Dispatch.ForwardedLocally`, `Dispatch.RejectedOnArrivalYetForwarded`).
- One sweep leaves no received row un-queued exactly when none of those not yet queued is parked,
  locked by a worker, or behind the oldest 100; both a reachable backlog of any larger size and a
  reachable parked row are missed (`BillingInbox.SweepQueuesAll`,
  `BillingInbox.SweepLeavesRowsBehind`, `BillingInbox.ParkedRowWaits`).
- A checkout attempt follows the edges its model documents except over a row the expiry sweep has
  already expired: the handler's second commit then revives it, and Razorpay settles it
  (`Checkout.RunIsDocumented`, `Checkout.OverExpired`, `Checkout.SlowProviderRevives`,
  `Checkout.LateSettlementRevives`). The code is followed here, not the docstring of
  `billing_checkout_attempt.py`.
- A successful cache invalidation makes all later loads fresh exactly when no reader that has
  SELECTed an older row is still to SET it, and such a schedule is reachable
  (`UserCache.DeleteRefreshes`, `UserCache.StaleReloadHappens`).
- A job's tries outlast its deadline exactly as long as its hasty stops (redeploys within five
  seconds) and the whole five-second slots of the deadline are together fewer than the tries; at
  the default deadline nine such stops are survived, and ten need not be
  (`Deadline.OutlastsExactly`, `Deadline.TenStopsExhaust`).
- A fenced prompt reads back exactly as long as no content carries its own closing delimiter and no
  text between the fences holds a complete header; the headings the storyboard prompt leaves
  outside the fences, being one line each, never do (`Fence.ReadRender`,
  `Fence.SectionsReadBack`).
- Accepted settings can cut the configured retry window (`Deadline.SliceLeavesRetryWindow`).

## Model

| member | source | states |
|---|---|---|
| LocalFallback.FallbackMap.Check | backend/middleware/rate_limit.py:699-723 | one local check, statement by statement, has exactly the effect and answer of the specification step |
| LocalFallback.FallbackMap.EvictOldest | backend/middleware/rate_limit.py:715-722 | above the cap the loop deletes exactly the 2,000 oldest keys, in insertion order |
| LocalFallback.CheckSelf | backend/middleware/rate_limit.py:706-714 | a check answers by the live stamps of its own key, keeps that key even when it evicts, and leaves it those stamps plus the new one |
| LocalFallback.CheckOther | backend/middleware/rate_limit.py:715-722 | no other key's history changes, unless the key is evicted whole |
| LocalFallback.EvictionFires | backend/middleware/rate_limit.py:42-46 | eviction fires exactly when an admitted new key finds the map full, and takes the oldest batch |
| LocalFallback.RunKeepsCapacity | backend/middleware/rate_limit.py:42-46 | every run leaves at most 10,000 keys |
| LocalFallback.WindowBound | backend/middleware/rate_limit.py:699-723 | in any window a key evicted e times in it is admitted at most (1 + e) * L times |
| LocalFallback.RejectionJustified | backend/middleware/rate_limit.py:707-710 | every rejection has L genuine admissions of that key in the last W |
| LocalFallback.RejectedCallsAreFree | backend/middleware/rate_limit.py:708-710 | had a rejected call not been made, every later call on any key would have the same answer |
| LocalFallback.RetryPasses | backend/middleware/rate_limit.py:699-723 | W after the last admission on a key, the local check admits again |
| RedisWindow.Server.Eval | backend/middleware/rate_limit.py:238-254 | the script, command by command, has exactly the effect and answer of the specification step |
| RedisWindow.ExpiryIsHarmless | backend/middleware/rate_limit.py:252 | when a key's TTL runs out no member was left in the window |
| RedisWindow.LimitersAgree | backend/middleware/rate_limit.py:238-278 | the script, the exact log of admissions and a script without EXPIRE answer every call alike; so does the local list whenever it evicts nothing |
| RedisWindow.FewKeysEvictNothing | backend/middleware/rate_limit.py:42-46 | a run on at most 10,000 distinct keys evicts nothing |
| RedisWindow.BoundedScript | backend/middleware/rate_limit.py:247-253 | each script run keeps the invariant that pays for every admission in an open window by a stored member or a loss |
| RedisWindow.RetryPassesRedis | backend/middleware/rate_limit.py:238-278 | W after the last admission on a key, the script admits again |
| Fleet.BackendBound | backend/middleware/rate_limit.py:300-364 | one backend lets at most (1 + its losses) * L requests past a tier in any window |
| Fleet.FleetBound | backend/middleware/rate_limit.py:300-364 | with P processes, Redis failing, losing replies and forgetting keys, and processes restarting with an empty map, at any moment, at most (P + 1 + losses) * L requests pass a tier in any window |
| Fleet.VerdictsAreFinal | backend/middleware/rate_limit.py:300-364 | a request once decided, or lost in a restart, stays as it is in every run |
| Fleet.WaitingPassesEverywhere | backend/middleware/rate_limit.py:300-364 | after any run, failovers and restarts included: once no backend has admitted a key for its window, a check of it passes on Redis and on every process's map |
| Paths.MatchesIsLanguage | backend/middleware/rate_limit.py:62-229 | the segment matcher decides exactly the language of the pattern, on paths of any length |
| Tiers.BadSettingsActAsDefaults | backend/middleware/rate_limit.py:419-482 | on every request, settings charge exactly like those in which each number that is not positive is replaced by its documented default |
| Tiers.OneFeature | backend/middleware/rate_limit.py:366-696 | for every verb and path at most one feature tier applies |
| Tiers.NamesExactly | backend/middleware/rate_limit.py:62-229 | the table of patterns and verbs names a tier if and only if an independent segment-by-segment reading of the path does |
| Tiers.ChainIsExactlyDue | backend/middleware/rate_limit.py:366-696 | a request is charged by exactly the tiers due: every feature tier that names it and is switched on, its address, its login tiers, its user, and nothing else |
| Tiers.ChainIsInOrder | backend/middleware/rate_limit.py:366-696 | the checks come in the order address, its feature, login burst, login hourly, user, the user's feature |
| Tiers.WebhookChain | backend/middleware/rate_limit.py:366-386 | the three webhook paths are charged to the address alone |
| Tiers.LoginChain | backend/middleware/rate_limit.py:421-456 | the login paths meet the address tier, the burst tier and the hourly tier, as configured |
| Tiers.GenerationIsSwitched | backend/middleware/rate_limit.py:462-490 | generation is metered if and only if its configured limit is positive |
| Tiers.Quotas | backend/middleware/rate_limit.py:62-229 | the tiers of each quota and window, grouped by quota |
| Tiers.AtMostFourWindows | backend/middleware/rate_limit.py:366-696 | a request charges between one and four windows, no window twice |
| Tiers.ChainFollowsRules | backend/middleware/rate_limit.py:366-696 | every charge follows the positive rule of its key, and its Retry-After is exactly its window |
| Tiers.RetryAfterSufficesLocally | backend/middleware/rate_limit.py:792-805 | waiting the announced Retry-After of any tier passes that tier in the fallback map |
| Tiers.RetryAfterSufficesOnRedis | backend/middleware/rate_limit.py:792-805 | and in Redis, TTLs included |
| Tiers.KeyStringsIdentify | backend/middleware/rate_limit.py:257-266 | different (tier, subject) pairs never share a stored key, whatever colons the subject holds |
| Dispatch.RateLimitMiddleware.Dispatch | backend/middleware/rate_limit.py:300-351 | the dispatcher leaves both backends and the response as specified, and logs one warning per stretch without Redis |
| Dispatch.RateLimitMiddleware.EnforceLocally | backend/middleware/rate_limit.py:353-364 | the chain walked on the fallback map, stopping at the first rejection |
| Dispatch.RateLimitMiddleware.EnforceOnRedis | backend/middleware/rate_limit.py:329-337 | the chain walked on Redis, stopping at the first rejection or failure |
| Dispatch.LocalWalkIs | backend/middleware/rate_limit.py:366-696 | the first tier that rejects at its turn decides and supplies Retry-After; later tiers are not charged |
| Dispatch.LosesExactly | backend/middleware/rate_limit.py:715-722 | a tier finds its history gone at its turn exactly under that condition |
| Dispatch.ForwardedLocally | backend/middleware/rate_limit.py:353-696 | forwarded if and only if each tier admits on arrival, or has its key among the 2,000 oldest of a map that the new keys of earlier tiers fill past its cap: a condition on the map before the request |
| Dispatch.RejectedOnArrivalYetForwarded | backend/middleware/rate_limit.py:353-364 | dispatches from an empty map that fill it, after which a request that its user tier rejects on arrival is nevertheless forwarded |
| Dispatch.ForwardedWhenAllAdmit | backend/middleware/rate_limit.py:366-696 | with room for four keys, forwarded if and only if all applicable tiers admit on arrival |
| Dispatch.RejectionChargesPrefix | backend/middleware/rate_limit.py:366-696 | a rejection names the rejecting tier's window and touches no key behind it |
| Dispatch.RedisWalkIs | backend/middleware/rate_limit.py:329-343 | on Redis each tier asked answers as it would have on arrival, and nothing behind the stop is charged |
| Dispatch.DispatchDecides | backend/middleware/rate_limit.py:332-351 | while Redis answers, its tiers alone decide and the fallback map is untouched; once it fails, the fallback map decides the whole chain |
| Dispatch.HealthIsFree | backend/middleware/rate_limit.py:300-312 | the health check, and nothing else, bypasses the limiter |
| Gate.DispatchIsARun | backend/middleware/rate_limit.py:300-351 | every dispatch, with Redis up, down or failing midway, is a run of the fleet with the same stores and verdict |
| Gate.TierBound | backend/middleware/rate_limit.py:366-696 | the fleet's window bound holds of every real tier under every setting |
| Gate.RetryAfterSuffices | backend/middleware/rate_limit.py:792-805 | waiting the announced Retry-After of any tier of a request passes that tier on whichever backend then decides |
| GithubInbox.Service.GithubWebhook | backend/routers/integrations.py:388-491 | the handler's early exits, and its insert, enqueue, commit as the corresponding run; each answer, the row and the job have their exact conditions |
| GithubInbox.TotalEnqueues | backend/routers/integrations.py:432-491 | jobs of a delivery = committed row (0 or 1) + handlers that enqueued and then did not commit |
| GithubInbox.CommittedMeansEnqueued | backend/routers/integrations.py:462-491 | a committed row, and every "queued" or "duplicate" answer, means the delivery was enqueued |
| GithubInbox.OneHolder | backend/routers/integrations.py:442-452 | at most one transaction holds a delivery uncommitted, and none once it is committed |
| GithubInbox.RedeliverySucceeds | backend/routers/integrations.py:462-484 | from any reachable state without a holder, one undisturbed redelivery ends enqueued and committed |
| GithubInbox.CrashCostsADuplicate | backend/routers/integrations.py:454-484 | at least once, not exactly once: a crash between hand-off and commit, and the redelivery's second job |
| BillingInbox.Service.Store | backend/routers/billing.py:1153-1197 | insert, commit, enqueue as the corresponding run; "already_processed" exactly when the identity is stored, "ok" exactly when a new one's commit is acknowledged, a server error otherwise |
| BillingInbox.Service.Find | backend/routers/billing.py:1169-1180 | the unique-index lookup |
| BillingInbox.InboxPromises | backend/routers/billing.py:897-943 | one row per identity, every job names a committed row, every "ok" or "already_processed" has a durable row |
| BillingInbox.SweepQueues | backend/services/billing_worker.py:837-916 | a full sweep queues a received row if and only if the row is neither parked (or parked rows are included) nor locked and is among the oldest 100 pending rows of the table |
| BillingInbox.SweepRetriesFailed | backend/services/billing_worker.py:890-916 | a full sweep queues a failed row if and only if it has retries left, is not locked and is among the oldest 100 pending rows |
| BillingInbox.SweepReclaims | backend/services/billing_worker.py:854-882 | an abandoned row in processing fails, counts a retry and is queued again in the same sweep while it has retries left; others are untouched |
| BillingInbox.SweepSparesOthers | backend/services/billing_worker.py:837-916 | no other row changes, and a processed one is never queued |
| BillingInbox.SweepQueuesAll | backend/services/billing_worker.py:837-932 | one full sweep leaves no received row of the table un-queued if and only if that holds of every received row not yet queued |
| BillingInbox.SmallBacklogIsQueued | backend/services/billing_worker.py:884-916 | with at most 100 pending rows, none of them parked or locked, it leaves none |
| BillingInbox.SweepLeavesRowsBehind | backend/services/billing_worker.py:132 | for every n there is a run with n un-queued rows, of which a full sweep leaves all but 100 |
| BillingInbox.ParkedRowWaits | backend/services/billing_worker.py:884-894 | a reachable parked row that no 60-second sweep queues and the reconciliation queues |
| CanonicalJson.LoadsRender | backend/routers/billing.py:1026-1033 | a reader undoes the printer on every value, with any white space after its separators, escapes and surrogate pairs included |
| CanonicalJson.CanonicalIdentity | backend/routers/billing.py:1026-1033 | two values print alike if and only if they mean the same, whatever their key insertion order |
| CanonicalJson.DumpsForm | backend/routers/billing.py:1026-1033 | the text has every object's keys in code-point order, no white space of its own, and printable ASCII only |
| CanonicalJson.LessIs | backend/routers/billing.py:1032 | the order of keys is by the first differing character, a prefix first |
| CanonicalJson.EscapeForm | backend/routers/billing.py:1032 | which characters are written as themselves, with two characters, as one escaped unit, and as a pair |
| CanonicalJson.LoadsDumps | backend/routers/billing.py:1026-1033 | reading a canonical text back yields the value it was printed from |
| Payload.LemonIdentity | backend/routers/billing.py:967-1023 | two accepted Lemon Squeezy deliveries share an identity if and only if their allow-listed fields agree |
| Payload.RazorpayIdentity | backend/routers/billing.py:1131-1164 | two accepted Razorpay deliveries share an identity if and only if their allow-listed fields agree; the delivery event id plays no part |
| Payload.PaidSame | backend/routers/billing.py:1270-1325 | equality of two payment_link.paid payloads, field by field |
| Payload.RefundSame | backend/routers/billing.py:1328-1384 | equality of two refund.processed payloads, field by field |
| Payload.DisputeSame | backend/routers/billing.py:1387-1427 | equality of two dispute payloads, field by field |
| Payload.StoredAddsEventId | backend/routers/billing.py:1145-1151 | the stored payload is the hashed one plus the event id and nothing else |
| Acceptance.RazorpayAcceptance | backend/routers/billing.py:1100-1427 | a Razorpay delivery is accepted if and only if its event is a payment, refund or dispute that meets that event's demands on the delivery's fields; ignored if and only if its event is another |
| Acceptance.LemonAcceptance | backend/routers/billing.py:812-876 | a Lemon Squeezy delivery is accepted if and only if event, type, mode, order id and, for a creation, nonce are right |
| Acceptance.PaidStores | backend/routers/billing.py:1270-1325 | an accepted payment is stored under its id with payment, link and notes field for field, this server's environment and a nonce hash |
| Acceptance.RefundStores | backend/routers/billing.py:1328-1384 | an accepted refund is stored under the payment it refunds, field for field, with this server's environment or none |
| Acceptance.DisputeStores | backend/routers/billing.py:1387-1427 | an accepted dispute is stored under its payment, its amounts as whole numbers and its status the one the event announces |
| Acceptance.LemonStores | backend/routers/billing.py:967-1023 | an accepted order is stored under its id with order, first item and custom block field for field; a creation has a nonce hash |
| Fence.ReadRender | backend/prompts/base.py:637-681 | a prompt is read back exactly, texts, labels and contents, if and only if no block's content carries its own closing delimiter and no text between the blocks holds a complete header |
| Fence.ReadBlockBack | backend/prompts/base.py:467-471 | one block is read back exactly, unless its content closes it or the text before it holds a header; then content or text is cut short |
| Fence.ClosesAt | backend/prompts/base.py:467-471 | the first closing delimiter with the announced nonce stands right after the content, unless the content holds one |
| Fence.BlockLayout | backend/prompts/base.py:674-681 | a block is the announcement, the bare inner tag, the content on its own lines, and three closing delimiters that each carry the nonce |
| Fence.AnnouncesTwice | backend/prompts/base.py:675-676 | the nonce stands in the opening tag and in the BEGIN marker, in front of the content |
| Fence.NoMarkerNoHeader | backend/prompts/base.py:675-678 | a text in which no line begins with the BEGIN marker holds no header, whatever opening tags are in it |
| Fence.SectionsReadBack | backend/prompts/storyboard.py:701-713 | the storyboard's source block is read back exactly, whatever its one-line headings hold, if and only if no excerpt carries its own closing delimiter |
| UserCache.BoundedStaleness | backend/middleware/auth.py:95-104 | a load returned at t matches the table at some instant after t - 30 - g, even if every invalidation fails |
| UserCache.GapIsMeasured | backend/middleware/auth.py:95-104 | the g of that bound is zero or the time some load really took |
| UserCache.DeleteRefreshes | backend/middleware/auth.py:195-206 | after a successful delete all later loads are fresh, on every schedule, if and only if no older reader is pending |
| UserCache.StaleReload | backend/middleware/auth.py:161-172 | the schedule in which an older reader puts its copy back |
| UserCache.StaleReloadHappens | backend/middleware/auth.py:95-104 | that schedule, reached from the start: GET, SELECT, commit, DELETE, SET, GET |
| UserCache.StoredCopyReadsBack | backend/middleware/auth.py:107-172 | the JSON text that is stored reads back as the row it was made from |
| UserCache.Auth.LoadUser | backend/middleware/auth.py:95-104 | an uninterrupted load is the protocol's run on that key: a copy younger than 30 s, or else the row, which it stores; it returns that user only, and touches no other key |
| UserCache.Auth.GetCurrentUser | backend/middleware/auth.py:46-78 | the request memo answers for its own user; otherwise the user is exactly what the load returns, which is someone if and only if a live copy is read or the table has the row; no other key is touched |
| AdminCorrection.ExactlyOnce | backend/routers/billing.py:565-728 | over all interleavings: at most one pack, one audit row and one applied answer, which names the rows committed; no pack without its ledger entry |
| AdminCorrection.RowsStay | backend/routers/billing.py:565-602 | committed rows are never replaced, and none is added once a pack exists |
| AdminCorrection.LockedInsertsSucceed | backend/routers/billing.py:528-540 | under the Razorpay payment lock neither the pack nor the audit insert can conflict after the pre-check |
| AdminCorrection.ConflictsAreNoErrors | backend/routers/billing.py:638-752 | in every run without failures a correction or grant that meets a rival answers "not applied", never an error |
| AdminCorrection.Orders.AdminCorrection | backend/routers/billing.py:504-752 | an uninterrupted correction writes rows exactly when its evidence holds (for Razorpay the original checkout, at this very price, paid by this very payment), its target exists, the order has no pack, audit row or correction entry, and its commit takes effect; every refusal leaves all rows as they were |
| Checkout.Checkouts.CreateCheckout | backend/routers/billing.py:254-371 | the handler is the corresponding run; each answer and each final row has its exact condition: a URL when both commits and the provider succeed, a `failed` row and a bad gateway when the provider refuses |
| Checkout.AttemptFirst | backend/routers/billing.py:298-371 | the attempt is durable before the provider is asked, a shown URL implies its committed checkout id, completion needs a shown URL |
| Checkout.RefusalFails | backend/routers/billing.py:322-329 | over every run: once the provider has refused and the second write took effect, the attempt is and stays `failed`, and no URL is shown |
| Checkout.GrantExactly | backend/services/billing_worker.py:1479-1548 | in every reachable state a payment settles the attempt exactly when there is one and the attempt is not expired or the provider is Razorpay |
| Checkout.RunIsDocumented | backend/models/billing_checkout_attempt.py:33-37 | over every run the status keeps to the documented edges if and only if no write lands on an expired row; completed is never overwritten |
| Checkout.EdgesAreDocumented | backend/models/billing_checkout_attempt.py:33-37 | in every reachable state a step commits a documented edge if and only if the row it overwrites is not expired |
| Checkout.OverExpired | backend/routers/billing.py:344-349 | the three writes that can land on an expired row |
| Checkout.InTime | backend/services/billing_worker.py:749-776 | no run that ends within the time to live leaves the documented edges |
| Checkout.SlowProviderRevives | backend/routers/billing.py:311-349 | a provider slower than the time to live: the swept attempt is revived and its URL shown |
| Checkout.LateSettlementRevives | backend/services/billing_worker.py:1479-1548 | a Razorpay checkout paid in time whose webhook comes after the sweep: the expired attempt is completed |
| Checkout.CrashIsSwept | backend/routers/billing.py:318-349 | a handler that dies while its provider answers leaves an attempt that the sweep expires |
| Deadline.SliceFits | backend/worker.py:80-102 | for all accepted settings the slice is at least 60 s, leaves at least 45 s, and ends before the queue's timeout |
| Deadline.BoundsAreExact | backend/config.py:385-452 | every bound of the settings' validation is reached, and one past it is refused |
| Deadline.SliceLeavesRetryWindow | backend/worker.py:74-87 | the slice leaves the configured retry window if and only if the deadline exceeds it by 60 s |
| Deadline.RetryWindowCanBeCut | backend/config.py:385-452 | accepted settings for which it does not |
| Deadline.SliceCoversOneCall | backend/worker.py:80-87 | exactly when a slice is long enough for one provider call |
| Deadline.OutlastsExactly | backend/worker.py:80-144 | for all accepted settings, a job with at most h hasty stops always has a try left until its deadline if and only if h plus a fifth of the deadline, rounded down, is less than its tries |
| Deadline.TenStopsExhaust | backend/worker.py:87-110 | at a deadline of 600 s nine hasty stops are survived, and a history with ten spends every try within the deadline |
| Deadline.RefusalsTake | backend/worker.py:141-144 | what refusals by each bulkhead cost in time: 5, 10, 10 and 60 seconds a try |
| Deadline.TriesOutlastDeadline | backend/worker.py:103-110 | the margin: no history spends more tries than ten short of the limit plus its hasty stops before the deadline, nor all of them before 50 s after it |
| Cancellation.GenerationRun.CancelStageGeneration | backend/routers/stage.py:302-365 | the endpoint's refusals by status, its one write, and a marker that outlives the deadline |
| Cancellation.CancellationIsSafe | backend/routers/stage.py:309-365 | over all interleavings in which a transaction reads the row under its lock and writes what it decided later: the request time is written once, a terminal run is never altered, a run asked to stop never succeeds, every marker outlives the deadline |
| Cancellation.RowKeepsShape | backend/routers/stage.py:347-354 | over all interleavings a running row is stopping from the moment it was asked to, a terminal row is complete since its last write, and no run succeeds at or after its deadline |
| Cancellation.CancelCompletes | backend/routers/stage.py:302-365 | a run: request, marker, worker stops; the run is cancelled at the time of the request and the marker is set |
| Cancellation.LockIsNeeded | backend/routers/stage.py:310-319 | without the lock there are runs that write the request time twice and that alter a run which has succeeded |
| Cancellation.RepeatsAgree | backend/routers/stage.py:332-365 | over all interleavings, all cancel requests shown the run are shown one request time, which the row keeps |
| Cancellation.MarkerOutlivesDeadline | backend/routers/stage.py:356-358 | the marker's truncated time to live always ends after the deadline |
| Cancellation.MarkerLife | backend/routers/stage.py:356-358 | and at most a minute: it ends 59 to 60 seconds after a deadline still ahead, a minute from now after one that has passed |
| BodyLimit.Exchange.Call | backend/middleware/body_size.py:15-52 | the loop decides as the stream does, calls the app or answers 413 at most once, and buffers at most the limit plus one chunk |
| BodyLimit.ChunkingIsInvisible | backend/middleware/body_size.py:25-52 | every chunking of a body within the limit yields that body in one message, every chunking of a longer one a 413 |
| BodyLimit.DecisionIsUnique | backend/middleware/body_size.py:27-39 | a stream has at most one decision |
| BodyLimit.DeclaredLength | backend/middleware/body_size.py:55-63 | the first Content-Length header counts, whatever its case |
| BodyLimit.Serve | backend/middleware/body_size.py:15-73 | one request end to end: however a body within the limit is chunked, the application's first read yields all of it in one message and no later read returns; beyond the limit a 413, and nothing is read |

## Left out

- Clock skew between API hosts, and readings that go backwards: one clock that never goes back is a precondition of the limiter's run theorems.
- Member names equal to a stored one (same nanosecond): freshness is a precondition wherever the sorted set is counted.
- Float time stamps: clock readings are integers.
- The `$` of the path patterns also matches before a final line feed; URL parsing removes line feeds before the middleware sees the path, so the patterns here end at the end.
- Client-address parsing, trusted proxies and JWT decoding: the address and the user id of a request are given.
- Response details, metrics and log lines, except the warning that Redis is not ready.
- The queue lane of a GitHub job: issue events take the fast one; here a job is its delivery.
- Webhook signatures: the GitHub handler is told whether its signature holds; the billing handlers start after it.
- Retention purges of inbox rows and attempts: a row stays once committed, so "durable" means until purged.
- The worker that processes billing rows is a contract: it rewrites a queued row's status and may finish its job. The insides of grants, settlements and refunds are contracts in the same way.
- The sweep's age limit for abandoned `processing` rows: which rows it reclaims is part of its input.
- `admin_correction` repairs the attempt row when a Razorpay pack already exists and completes it when one is granted: the attempt row is not part of this model. Whether the link, notes and attempt of a payment belong together is one fact of the request.
- The secondary unique index on the provider checkout id of packs.
- Lone surrogates and floats in JSON: strings hold Unicode scalar values and numbers are integers.
- Python's `str` and `int` of a parsed value, SHA-256 and HMAC are parameters; SHA-256 is collision-free where identities are compared, and nonces are sixteen hex digits.
- Fence.ReadRender: assumes labels without double quote or line feed, which the callers' fixed names, section ids and task references satisfy.
- That a payload cannot guess its own nonce: the theorem says what follows when it does and when it does not.
- A stored user copy with a column of another JSON type, which only another schema version would write, is a miss here; the code passes some of them on.
- `clear_user_cache` and `get_optional_user`: nothing beyond the members modelled.
- Checkout: an attempt paid through a link the provider sent on its own, and an admin correction of it.
- Deadline: waiting times of bulkheads are the four constants of `services/pipeline/admission.py`; what a generation does inside its slice is not modelled.
- Cancellation: phase changes while drafting, heartbeats and chunk checkpoints.
