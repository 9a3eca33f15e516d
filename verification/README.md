# A verified model of the JieShan gateway

JieShan is an AI relay: it authenticates downstream keys, reserves their quota, tries upstream sites and keys in a
configured order, streams or returns the answer, and settles what the answer cost. This project models the parts of it
that are explicit state machines over persisted rows, together with the arithmetic they rest on, and proves what they
promise over every input, every interleaving and every history.

## Reading guide

| Files | Subject |
|---|---|
| `Wrappers` | optional values, results, the 64-bit limit |
| `QuotaLedger`, `QuotaStore` | the quota tables as a value, one function per transaction; the store whose methods run them |
| `QuotaRuns`, `QuotaProofs`, `QuotaRecovery`, `QuotaTheorems`, `QuotaEffects` | runs of transactions in any order, the inductive invariant, the theorems about whole runs, and what each transaction does row by row |
| `Rounding`, `Pricing`, `PricingTheorems` | half-up rounding with largest-remainder apportionment; quotes, reservations and their upper bound |
| `TokenReports`, `Accounting`, `Coverage` | reported token counts; what a request reserves and is charged; what its reservation covers |
| `Classification`, `Failover`, `FailoverTheorems`, `SiteHealth` | what an answer is taken for, the loop over sites and keys for every outcome oracle, and what it reports to the circuits |
| `StreamProxy` | the delayed-commit stream proxy over the bytes of a body |
| `Lifecycle` | one request from reservation to settlement, among any other steps |
| `Breaker`, `BreakerTheorems`, `BreakerReference`, `PermitSafety` | the circuit breaker, its histories, its half-open leases |
| `MigrationRoutes`, `MigrationAccounts`, `Migration`, `MigrationStore` | the legacy migration: planner, applier, and the loops that run them |
| `MigrationTheorems`, `MigrationIdle`, `MigrationExample` | the plan rebuilt after an apply, when there is nothing to do, and small databases that show it |
| `MigrationEffects`, `MigrationMoved`, `MigrationCounts` | what an apply leaves in every table, and that it is as much as was announced |
| `MigrationVerdicts`, `MigrationSuccess` | exactly when a call ends with which verdict |
| `Fingerprint` | the framing of the bytes a plan's fingerprint is computed from |
| `ProbeRuns`, `Pagination`, `Reorder` | probe accounting under concurrency, keyset pagination, reordering |

Code that updates state in place appears as a class or a method with loops, proved equal to a function; the theorems are
about that function. `dafny verify dfyconfig.toml` covers the whole project.

## How the system is read

* A SQL transaction is one step that commits a whole new state or changes nothing. Row order in a query is the order of
  the table; `AUTOINCREMENT` never reuses an id; primary, foreign and unique keys hold.
* Clocks, upstream outcomes, refused permits, expired deadlines, failing client writes, worker scheduling and failures of
  a finish before or after its commit are parameters, so each theorem is about all of them. A timeout is one more outcome.
* Money, tokens and times are unbounded integers; where the code tests for 64-bit overflow, so does the model. Rates are
  exact rationals that are already parsed.
* SHA-256, encryption, JSON and the parsing of a stream line are uninterpreted. JSON canonicalisation is taken to be
  idempotent.

## Findings

* **The migration is not always a fixed point.** `docs/migration.md:126-128` says that repeating an apply must be
  idempotent. A second apply never changes anything (`MigrationTheorems.MigrateTwice`), but it reports success only if
  every account that was created has an API origin whose stored form is stable. Each pass over an origin trims white
  space once and then slashes once, so a path that ends in spaced slashes keeps changing: a dashboard address configured
  as `https://h/a / / /` is checked as `https://h/a / / ` (internal/accountsync/service.go:1070-1080), stored as
  `https://h/a / ` (internal/store/accounts.go:495-505), migrated to `https://h/a ` and compared as `https://h/a`. The
  account the migration created itself is then a conflict that blocks the next apply. `MigrationTheorems.FixedPoint`
  gives the exact condition, `MigrationExample.SpaceBeforeSlash` the failing family.
* **A migration with nothing to do may leave upstreams unmapped.** The apply stops on an empty plan even when not
  everything is applied (internal/store/v5_legacy_migration.go:304). An upstream without endpoints, models, credentials
  and an account of its own, added to a group that has its site, then stays unmapped until something else is to be migrated
  (`MigrationIdle.Latecomer`, `MigrationIdle.LeftBehind`). `MigrationIdle.NothingToDoMeans` says exactly when such a report means that all is mapped.
* **Planned and inserted route targets can differ.** The planner counts site groups, the applier inserts per site. The
  numbers agree exactly when distinct routable groups of a route sit on distinct sites
  (`MigrationRoutes.PlannedAreInserted`); an earlier mapping of two origins to one site breaks it
  (`MigrationRoutes.PlannerOvercounts`).
* **A preview without conflicts may still be impossible to apply.** The planner looks at one group of upstreams at a time.
  When two groups are on one site, each may be planned to create that site's only account; `site_accounts.site_id` is
  unique (internal/store/migrations.go:589), so the second insert fails and every call ends in an error that the preview
  does not announce. It takes two upstreams migrated under one origin, one of which then moves to another origin before
  both get an account (`MigrationExample.TwoAccountsForOneSite`). `MigrationSuccess.VerdictsAre` says exactly when a call
  ends with which verdict.
* **A reservation can be too small.** It prices the maximum in the band of the maximum, and every rate of that band is an
  upper bound only for usages in bands that are nowhere dearer. A catalogue whose short-prompt band is dearer than its
  long-prompt band passes validation; a body whose length in bytes falls into the long band then reserves less than its
  prompt costs once it turns out to be a short one: 201,024 reserved and a price of 500,000 in
  `Coverage.CheaperLongBandUnderReserves`. `PricingTheorems.ReservationCoversIff` gives the exact condition on the bands.
  It takes a catalogue given to `ParseCatalog`: the program loads only the built-in one, whose lists of several bands all
  rise with the prompt.
* **Reasoning is reserved only up to its own budget.** Without one the whole completion limit is reserved at the output
  rate, so where reasoning is dearer an answer within the limit can cost more than was reserved, whatever the body and
  the limit (`Coverage.DearReasoningUnderReserves`). `Coverage.PreparedCoversIff` gives the exact condition on bands and
  limits, `Coverage.SplitRatesIff` the one on the two rates. In the built-in catalogue they are equal in every band, which
  meets it.
* **A finish that comes after the request was settled may report an invalid quota state** rather than an already finished
  request, because the key's balance is checked before the request's status. It still changes nothing.
  `QuotaTheorems.LateFinishReports` gives the exact report for every reachable state,
  `QuotaTheorems.LateFinishIsReachable` a run that gets there.
* **A request whose unlimited key is deleted stays running until the next recovery**, since its finish no longer finds
  the key: `QuotaProofs.FinishOutcome` says exactly when a finish commits, `QuotaTheorems.StrandedUntilRecovery` that in
  every run only a recovery ends such a request, and `QuotaTheorems.StrandingIsReachable` gives a run that makes one. It
  holds no reservation, so nothing leaks.
* **The reference breaker `health.RecordFailure` differs from the persisted one on tripped circuits**: it can close an
  open one, and shorten the cooldown of any; the persisted one does neither. `BreakerReference.AgreesExactlyWhen` says
  when they agree, after any interleaving of permits and events.
* **Paging cannot resume at a negative timestamp**, which the cursor validation refuses
  (`Pagination.NegativeTimesCannotBeResumed`); with non-negative timestamps it is exact. The program writes `started_at`
  from its clock, so a negative one does not occur in practice.

## Model

| member | source | states |
|---|---|---|
| `QuotaStore.Store.StartRequestWithReservation` | internal/store/logs.go:63-103 | the start transaction, including the guarded admission of a finite key; a refused start changes nothing |
| `QuotaStore.Store.FinishRequestAndSettle` | internal/store/logs.go:122-209 | the settlement transaction with its error order: amounts, key, quota state, finished request, overflow |
| `QuotaStore.Store.WriteSettlement` | internal/store/logs.go:181-207 | which settle, release and additional rows a settlement writes; never one with a zero amount |
| `QuotaStore.Store.RecoverRunningRequests` | internal/store/recovery.go:19-100 | recovery as a loop over the orphaned reservations that rolls back entirely when one release misses its row |
| `QuotaStore.Store.CreateDownstreamKey` | internal/store/keys.go:30-45 | a new key starts unused and unreserved; a negative quota is refused |
| `QuotaStore.Store.UpdateDownstreamKey` | internal/store/keys.go:68-87 | a quota below what is used and reserved is refused |
| `QuotaStore.Store.DeleteDownstreamKey` | internal/store/keys.go:89-122 | a key with reservations is kept; otherwise its ledger rows go and its requests lose their key |
| `QuotaStore.Store.ResetDownstreamKeyUsage` | internal/store/keys.go:124-141 | only a key without reservations is reset, together with its ledger rows |
| `QuotaStore.Store.DeleteOldLogs` | internal/store/logs.go:514-529 | pruning drops finished requests older than the cutoff and the ledger rows of vanished requests |
| `QuotaStore.ReleaseFails` | internal/store/recovery.go:64-81 | a release that fails makes the whole recovery fail |
| `QuotaTheorems.StepKeeps` | internal/store/logs.go:63-209 | every transaction, in any good state, leaves a good state: the inductive core of all that follows |
| `QuotaTheorems.Reachable` | internal/store/recovery.go:19-100 | every state reachable by any order of the eight transactions is good |
| `QuotaTheorems.QuotaSafety` | internal/store/logs.go:76-96 | after any run no key is overdrawn, nothing is negative, and a key's reserved amount is exactly what its running requests hold |
| `QuotaTheorems.FiniteFinishCommits` | internal/store/logs.go:130-178 | a finish on a finite key commits exactly while its request runs, applies at least the smaller of charge and own reservation, and keeps the quota |
| `QuotaTheorems.LedgerConservation` | internal/store/logs.go:181-207 | the live rows of every request that is over charge exactly what it was charged, reserve equals settle plus release, and a key's usage is its live charges plus those pruned since its last reset |
| `QuotaTheorems.RecoveryReleasesEverything` | internal/store/recovery.go:29-88 | the recovery sum is the whole reservation of a running request; recovery always succeeds, zeroes every reserved amount and leaves every usage alone |
| `QuotaTheorems.LateFinishReports` | internal/store/logs.go:130-164 | what a finish reports once its request no longer runs, in every reachable state: missing key, invalid quota state or already finished, exactly when which; nothing changes |
| `QuotaTheorems.LateFinishIsReachable` | internal/store/logs.go:130-164 | a legal run after which a repeated finish reports an invalid quota state |
| `QuotaTheorems.StrandedFinishIsNothing` | internal/store/logs.go:130-141 | a finish of a request whose key is gone changes nothing |
| `QuotaTheorems.StrandedUntilRecovery` | internal/store/keys.go:89-122 | in any run a request whose key is gone keeps running until the first recovery, which ends it |
| `QuotaTheorems.StrandingIsReachable` | internal/store/keys.go:89-122 | a legal run that strands a request: its unlimited key is deleted |
| `QuotaTheorems.ExactlyOnce` | internal/store/logs.go:154-164 | in any run a request leaves `running` at most once and at most one of its finishes commits |
| `QuotaTheorems.RunningBefore` | internal/store/logs.go:154-164 | nothing but its own start ever makes a request running |
| `QuotaTheorems.RetryIsHarmless` | internal/gateway/v3.go:61-75 | after a finish that reached its commit, a retry of any amount changes nothing |
| `QuotaTheorems.UnchargedFinishReleases` | internal/store/logs.go:181-207 | a finish that charges nothing gives the whole reservation back and touches no usage |
| `QuotaTheorems.UsageChanges` | internal/store/keys.go:124-141 | only a committed finish of one of its requests or a reset changes a key's usage |
| `QuotaEffects.CreateEffect` | internal/store/keys.go:30-45 | a created key has exactly the settings asked for, unused and unreserved; creation fails exactly on a negative quota |
| `QuotaEffects.UpdateEffect` | internal/store/keys.go:68-87 | an edit commits exactly when the key exists and a finite quota covers what is used and reserved; then all three settings take effect and every other row is left alone |
| `QuotaEffects.UpdateGoverns` | internal/store/logs.go:76-96 | the next metered request after an edit is admitted or refused under the new settings |
| `QuotaEffects.FinishEffect` | internal/store/logs.go:166-207 | a committed finish takes the request's own reservation off its key, adds what the quota lets it charge, and marks exactly that request |
| `QuotaEffects.SettlementIs` | internal/store/logs.go:181-207 | exactly which rows settle a request, with which amounts |
| `QuotaEffects.RecoverEffect` | internal/store/recovery.go:42-100 | recovery fails exactly the running requests and appends exactly one release for what each of them holds |
| `QuotaEffects.DeleteEffect` | internal/store/keys.go:89-122 | exactly when a deletion commits, which ledger rows go, and which requests lose their key |
| `QuotaEffects.ResetEffect` | internal/store/keys.go:124-141 | exactly when a reset commits; it forgets the key's usage and ledger rows and nothing else |
| `QuotaEffects.PruneEffect` | internal/store/logs.go:514-529 | pruning keeps exactly the requests that started at the cutoff or later or still run, and exactly their ledger rows |
| `QuotaProofs.StartOutcome` | internal/store/logs.go:63-103 | in a good state a metered request is admitted exactly when its key is enabled, unexpired and has room for the whole amount; a refusal changes nothing |
| `QuotaProofs.StartEffect` | internal/store/logs.go:74-103 | an admitted request runs, its key reserves the amount and one reserve row records it, unless the key is unlimited |
| `QuotaProofs.FinishOutcome` | internal/store/logs.go:130-180 | exactly when a finish commits in a good state, and the bounds on what it applies |
| `QuotaProofs.PruneKeeps` | internal/store/logs.go:514-529 | pruning moves charges from the live ledger to the history without losing any |
| `QuotaRecovery.OrphansExpected` | internal/store/recovery.go:29-40 | the grouped recovery query finds one row per running reservation and none for a finished request |
| `QuotaRecovery.ReleaseExpected` | internal/store/recovery.go:64-81 | the release loop never misses a row; after n requests each key has given back exactly their sum |
| `QuotaRecovery.ClosedBalances` | internal/store/logs.go:181-207 | the rows of a settled reservation balance and charge exactly the applied amount |
| `Rounding.RoundComponents` | internal/billing/engine.go:401-447 | the loop that floors, orders by remainder and hands out units computes the specified amounts and total |
| `Rounding.RemainderFits` | internal/billing/engine.go:423-429 | the units left over always number between zero and the components, so the invalid-remainder error is unreachable |
| `Rounding.OrderSorted` | internal/billing/engine.go:430-432 | the stable order by remainder: a permutation, larger remainders first, ties by position |
| `Rounding.UnitsArePositive` | internal/billing/engine.go:430-435 | a component without a fractional part never gets a unit |
| `Rounding.WholeCostKept` | internal/billing/engine.go:430-435 | a whole cost, such as that of zero tokens, is kept as it is |
| `Rounding.HalfUp` | internal/billing/engine.go:449-456 | the nearest whole number, the upper one half way |
| `Rounding.RoundCorrect` | internal/billing/engine.go:401-456 | amounts add up exactly to a total that is the nearest whole number to the sum of the costs, the upper one half way; each is the floor of its cost or one more; the exact error cases |
| `Rounding.LargestRemainderIsOptimal` | internal/billing/engine.go:401-447 | no other assignment of integers with that sum has a smaller total absolute error |
| `Pricing.PromptTokens` | internal/billing/engine.go:27-43 | the prompt total, rejected exactly when a category is negative or the sum leaves 64 bits |
| `Pricing.BandIndex` | internal/billing/engine.go:381-395 | the first band that fits the prompt |
| `Pricing.Dearest` | internal/billing/engine.go:312-345 | the dearest priced category, the first on a tie |
| `Pricing.ConservativeMaximumUsage` | internal/billing/engine.go:312-360 | the loop that moves all prompt tokens to the dearest priced prompt category; output and reasoning stay as they are |
| `Pricing.ValidateRateBands` | internal/billing/catalog.go:274-307 | accepts exactly the non-empty band lists whose limits are positive and strictly rise, with only the last one optional, and whose bands price input and output |
| `PricingTheorems.QuoteCorrect` | internal/billing/engine.go:205-261 | exactly which usages are quoted; the six amounts add up to the half-up total and unused categories are free |
| `PricingTheorems.QuoteIsNearest` | internal/billing/engine.go:205-261 | the total is the nearest whole micro-unit to rates times tokens over the rate of exchange, each amount within one unit of its own category's cost |
| `PricingTheorems.ZeroUsageIsFree` | internal/billing/engine.go:205-261 | no usage is always quoted, at zero |
| `PricingTheorems.ReservationRequotes` | internal/billing/engine.go:287-310 | a reservation's stored maximum quotes again at the reserved amount |
| `PricingTheorems.ReservationIsUpperBound` | internal/billing/engine.go:287-360 | however the tokens split, a usage within the maxima in a band that is nowhere dearer costs at most what was reserved |
| `PricingTheorems.CeilingDominates` | internal/billing/engine.go:312-360 | within one band nothing is dearer than the ceiling of that band |
| `PricingTheorems.ReservationCoversIff` | internal/billing/engine.go:287-360 | the exact condition, on bands and maxima alone, under which a reservation covers every usage within its maxima |
| `PricingTheorems.ReservedIsCeiling` | internal/billing/engine.go:287-360 | what is reserved is the rounded ceiling of the band in which the maximum falls |
| `Coverage.PreparedReserves` | internal/gateway/gateway.go:572-609 | the prepared amount in terms of bands and limits alone: the reasoning budget at its rate, the rest of the completion limit at the output rate, at least one |
| `Coverage.AllowedBound` | internal/billing/engine.go:205-261 | nothing within the client's limits costs more than the dearest split of its band |
| `Coverage.PreparedCoversIff` | internal/gateway/gateway.go:572-609 | exactly when a metered reservation covers everything the client's limits allow, however output and reasoning split |
| `Coverage.SplitRatesIff` | internal/gateway/gateway.go:579-586 | the exact condition on the output and reasoning rates of a band for the reserved split to be the dearest |
| `Coverage.PreparedCoversWhen` | internal/gateway/gateway.go:572-609 | rates that meet it, in bands that are nowhere dearer, make the reservation an upper bound |
| `Coverage.DearReasoningUnderReserves` | internal/gateway/gateway.go:579-586 | a price list on which, for every body and completion limit, an answer within the limits costs three times what was reserved |
| `Coverage.CheaperLongBandUnderReserves` | internal/billing/catalog.go:274-307 | a validated band list and a request whose prepared reservation is less than an answer within its limits costs |
| `TokenReports.TokenGroups` | internal/gateway/gateway.go:1001-1018 | the loop that takes cached parts off the prompt total, refusing a part that does not fit |
| `TokenReports.EveryTokenIsBilledOnce` | internal/gateway/gateway.go:908-1030 | a billed usage has no negative category and its categories add up to the reported prompt and completion |
| `TokenReports.EveryCategoryIsItsOwn` | internal/gateway/gateway.go:908-1030 | every billed category comes from what was reported as its own: uncached input, cache reads, five-minute and one-hour writes, output without reasoning, reasoning |
| `TokenReports.CompleteIff` | internal/gateway/gateway.go:946-1025 | a report is billed as reported exactly when it adds up and tells of any token |
| `Accounting.Settle` | internal/billing/engine.go:362-379 | charged plus released equals reserved plus additional, and never both of the last |
| `Accounting.ComputeCharge` | internal/gateway/gateway.go:1077-1102 | the fallback flag and the second settlement attempt as the gateway takes them |
| `Accounting.PrepareMeetsLedger` | internal/gateway/gateway.go:572-609 | an accepted request reserves a positive 64-bit amount exactly when its key has a quota: the ledger's caller contract |
| `Accounting.PreparedQuotes` | internal/gateway/gateway.go:592-608 | every prepared account can quote both no usage and its stored maximum on its frozen snapshot; a metered one reserves exactly that quote, or one where it is zero; a reservation is kept exactly when the price allows one |
| `Accounting.UnpricedRequests` | internal/gateway/gateway.go:592-603 | without a price a metered request is refused and an unmetered one served without a reservation |
| `Accounting.FallbackBill` | internal/gateway/gateway.go:1086-1097 | missing, incomplete or unquotable usage is billed the quoted maximum |
| `Accounting.FinishIsTotal` | internal/gateway/gateway.go:1077-1102 | whatever usage was reported, the charge is defined, 64-bit, and for every priced account exactly the quote of that usage or of the maximum |
| `Classification.KeyLocalAnswers` | internal/gateway/v3.go:397-404 | exactly which answers let the next key of the same site be tried |
| `Classification.AnswersAre` | internal/health/health.go:51-78 | what every answer is taken for by status number and message: class, failover, blame, key, unsupported model, Retry-After |
| `Classification.FaultsAre` | internal/health/health.go:39-49 | connection and stream faults, and a success that is no answer |
| `Failover.ServeRequest` | internal/gateway/v3.go:82-326 | the loop over sites with budget, skipped sites and permits computes the specified trace |
| `Failover.TrySite` | internal/gateway/v3.go:119-311 | the loop over a site's keys, with the health event for a site none of whose keys builds |
| `FailoverTheorems.OutcomesDecide` | internal/gateway/v3.go:140-304 | by status number, unsupported model and validity alone: which outcome leads to the next key, the next site, an end or a surrender, and which health event it is |
| `FailoverTheorems.AnswersDecideNext` | internal/gateway/v3.go:119-311 | in every run, the next key follows exactly a key's own fault, a later site the site's fault or the last key's, and nothing any other outcome; every entered site is tried unless the deadline had passed |
| `FailoverTheorems.AnswersDecideEnd` | internal/gateway/v3.go:183-304 | a run stops exactly on output or on a refusal, with that attempt's status; output is charged with exactly that attempt's usage, a refusal is not |
| `FailoverTheorems.StrictOrder` | internal/gateway/v3.go:93-312 | attempts strictly increase and are numbered from zero, the budget holds, a key follows only its predecessor's own fault, nothing follows an ending attempt, one health event per site |
| `FailoverTheorems.NoSiteSkipped` | internal/gateway/v3.go:93-117 | before an entered site every other was entered, keyless or denied; giving up needs all of the budget (three unless set) spent, no site left, or an interruption at the very site or key that was next in turn |
| `FailoverTheorems.ChargedIffDelivered` | internal/gateway/v3.go:183-326 | charged exactly when output was delivered; an upstream answer is written only after settlement, otherwise the client gets a 500 |
| `FailoverTheorems.GivingUp` | internal/gateway/v3.go:314-326 | a request that runs out of sites delivered nothing |
| `FailoverTheorems.GivesUpWithLastStatus` | internal/gateway/v3.go:86-326 | a request that gives up answers with the status and body owed by its last attempt, 503 without any, and 500 exactly when the health state of the next site in turn could not be stored |
| `FailoverTheorems.HealthEventsMatch` | internal/gateway/v3.go:161-308 | health events are exactly those the attempts call for |
| `SiteHealth.EventsAre` | internal/gateway/v3.go:161-291 | which outcomes say what of a site: a success, a fault held against it, or an unsupported model without blame; a key's own fault says nothing, so no Retry-After reaches the circuit |
| `SiteHealth.UnsupportedModelIsLearned` | internal/store/v4_health.go:154-157 | after any history, an answer that the site does not have the model makes every later live request skip it |
| `StreamProxy.ChunksCover` | internal/gateway/gateway.go:652-667 | cutting a body at newlines loses nothing up to an overlong line |
| `StreamProxy.ChunkSizes` | internal/gateway/gateway.go:652-667 | no chunk is empty or longer than the reader's buffer |
| `StreamProxy.ChunksAreLines` | internal/gateway/gateway.go:652-667 | every chunk is one line of the body, but for a last one without newline; reading stops early exactly at a line beyond the buffer |
| `StreamProxy.ProxyDelayedStream` | internal/gateway/gateway.go:651-715 | the proxy's loop computes the specified run over any body and any client |
| `StreamProxy.HoldOrForward` | internal/gateway/gateway.go:668-702 | one round: usage first, then hold up to 256 KiB, commit at semantic output, or forward |
| `StreamProxy.ProxyIsTransparent` | internal/gateway/gateway.go:651-715 | nothing is written, or a prefix of the body and, unless the client failed, exactly the chunks read; commit exactly at a first semantic chunk that fits; which error; last complete usage |
| `StreamProxy.BrokenClientHolds` | internal/gateway/gateway.go:668-702 | a client that fails holds every write before the failing one, and of that one as much as it took |
| `StreamProxy.FlowOfStream` | internal/gateway/v3.go:183-225 | a committed stream ends the request, charged with the observed usage and successful exactly when it ended cleanly in time; an uncommitted one goes to the next site unless the client left |
| `StreamProxy.StreamAttempt` | internal/gateway/v3.go:183-225 | the next site is tried exactly while the client holds not one byte and is still there; otherwise the request stops, is charged with the last usage reported, and succeeds exactly when all of the body arrived in time |
| `Lifecycle.FinalizeThenDefer` | internal/gateway/v3.go:58-75 | finalize plus its deferred retry amount to one finish unless both fail before commit; a reported success really settled |
| `Lifecycle.ChargedAtMostOnce` | internal/gateway/v3.go:58-75 | in any run the charge is applied at most once, at least up to the reservation and never beyond what was asked |
| `Lifecycle.SettledForGood` | internal/store/logs.go:154-164 | once no longer running, a request stays so, its charge is final and every later finish is a no-op |
| `Lifecycle.BillIsTotal` | internal/gateway/gateway.go:1072-1102 | every end of the loop has a defined 64-bit bill, zero unless output was delivered, and then the quote of the delivering attempt's usage or of the reserved maximum |
| `Lifecycle.StartIsLegal` | internal/gateway/v3.go:48-56 | a prepared request may always be started under a new id |
| `Lifecycle.UndeliveredIsFree` | internal/gateway/v3.go:314-326 | a request that delivered nothing is never charged, and once over its rows are a reserve and its full release |
| `Lifecycle.DeliveredIsChargedOnce` | internal/gateway/gateway.go:1072-1119 | a settled request pays its bill up to its reservation at least; a fallback bill in full |
| `Lifecycle.AnswerFollowsSettlement` | internal/gateway/v3.go:257-271 | an upstream's answer is written only after the settlement committed; after a failed or unreported one the client gets a 500, unless it holds the stream |
| `Breaker.HealthRow.AcquirePermit` | internal/store/v4_health.go:19-71 | the permit transaction |
| `Breaker.HealthRow.ApplyEvent` | internal/store/v4_health.go:86-115 | the event transaction: reduce, write back only a change |
| `BreakerTheorems.RedeliveryIsHarmless` | internal/store/v4_health.go:129-131 | delivering the last incident again changes nothing, anywhere in a history |
| `BreakerTheorems.PermitsAside` | internal/store/v4_health.go:37-71 | in any interleaving, permits change nothing about what failures and successes do: not the counter, the cooldown, the incident, nor whether the circuit is tripped |
| `BreakerTheorems.History` | internal/store/v4_health.go:117-198 | after any interleaving of permits and events under changing policies: the circuit is tripped exactly when the penalising failures since the last success, without redeliveries, contain a Retry-After or a run of threshold failures whose gaps fit the window, and otherwise counts the longest chain ending at the last one; its cooldown is the latest asked for, and capability, last success and last error are what the reports said last |
| `BreakerTheorems.UnsupportedIsSkipped` | internal/store/v4_health.go:43-45 | on any circuit a live request is denied after an unsupported answer until a success, and on a closed one for no other reason |
| `BreakerReference.AgreesUnlessOpen` | internal/health/health.go:125-140 | on a closed circuit the reducer does what the reference breaker does; on a half-open one exactly when its cooldown ends no later than the new one |
| `BreakerReference.OpenCircuits` | internal/health/health.go:125-140 | on open circuits exactly when they agree |
| `BreakerReference.AgreesExactlyWhen` | internal/health/health.go:125-140 | after any interleaving of permits and events, exactly when they agree on one more failure |
| `PermitSafety.AlwaysSound` | internal/store/v4_health.go:37-67 | in every interleaving: open means a cooldown and no lease, half open a lease past the cooldown |
| `PermitSafety.WritesAreStamped` | internal/store/v4_health.go:46-67 | whatever a permit or event writes carries its time |
| `PermitSafety.StaysTripped` | internal/store/v4_health.go:135-197 | until a success the cooldown never decreases |
| `PermitSafety.DeniedUntilCooldown` | internal/store/v4_health.go:37-67 | until a success every permit before the cooldown's end is denied, probe or live |
| `PermitSafety.LeasesAreExclusive` | internal/store/v4_health.go:46-67 | of any two half-open grants, with any other grants in between, the later comes no earlier than the end of the earlier lease, one second at least, unless a result was recorded between them |
| `PermitSafety.TrippedCircuitRecovers` | internal/store/v4_health.go:37-67 | a tripped circuit grants a lease to an eligible request exactly when its cooldown, or the lease of a half-open one, is over |
| `MigrationRoutes.PlanTargets` | internal/store/v5_legacy_migration.go:686-710 | the planner's loop counts distinct groups of routable targets |
| `MigrationRoutes.ApplyTargets` | internal/store/v5_legacy_migration.go:1409-1454 | the applier's loop inserts the specified rows |
| `MigrationRoutes.RowsAre` | internal/store/v5_legacy_migration.go:1409-1454 | the rows are exactly the first routable targets of their sites, in legacy order, at positions 0, 1, 2, ... |
| `MigrationRoutes.OneRowPerSite` | internal/store/v5_legacy_migration.go:1409-1420 | no site has two rows, and every site of a routable target has one |
| `MigrationRoutes.PlannedAreInserted` | internal/store/v5_legacy_migration.go:686-710 | planned and inserted counts agree exactly when distinct groups sit on distinct sites |
| `MigrationRoutes.PlannerOvercounts` | internal/store/v5_legacy_migration.go:686-710 | two planned, one inserted |
| `MigrationAccounts.AdapterIsStable` | internal/store/v5_legacy_migration.go:1484 | the stored adapter name is its own stored form |
| `MigrationAccounts.LowerFolds` | internal/store/v5_legacy_migration.go:1484 | two names have one lower-case form exactly when they differ in the case of ASCII letters only |
| `MigrationAccounts.StableIff` | internal/store/v5_legacy_migration.go:913-915 | the stored origin is its own stored form exactly when it does not end in white space |
| `MigrationAccounts.UnstableOrigin` | internal/store/accounts.go:495-505 | origins that writers can store and for which it is not, pass by pass |
| `MigrationAccounts.StoredIsRecognised` | internal/store/v5_legacy_migration.go:909-934 | a stored configuration compares equal to its original exactly when its origin is stable |
| `MigrationAccounts.LoadStored` | internal/store/v5_legacy_migration.go:985-1013 | a usage record survives storing and loading, empty strings being NULL |
| `MigrationAccounts.CollectSnapshots` | internal/store/v5_legacy_migration.go:801-824 | snapshots are deduplicated by time and canonical JSON |
| `MigrationAccounts.CollectUsage` | internal/store/v5_legacy_migration.go:826-852 | usage is deduplicated by key; two different records under one key are a conflict |
| `MigrationMoved.DistinctSnapsAre` | internal/store/v5_legacy_migration.go:801-824 | deduplicated snapshots are exactly the canonical ones, each once; it fails exactly on JSON that does not parse |
| `MigrationMoved.DistinctUsageIs` | internal/store/v5_legacy_migration.go:826-852 | deduplicating usage fails exactly on JSON that does not parse or on two different records of one key |
| `MigrationAccounts.NewestFirstSorts` | internal/store/v5_legacy_migration.go:750-756 | the representative is the group's most recently updated account |
| `MigrationAccounts.DepositCovers` | internal/store/v5_legacy_migration.go:1462-1510 | depositing a planned unit leaves an account that holds every snapshot and record of the group and loses nothing |
| `MigrationAccounts.ReplanIsEmpty` | internal/store/v5_legacy_migration.go:864-903 | planning a covered group again creates nothing, or conflicts when its account is not recognised |
| `MigrationVerdicts.UnitIff` | internal/store/v5_legacy_migration.go:753-903 | a group's accounts can be moved exactly when they are configured alike, have credentials, and their rows parse and agree with one another and with the site's account |
| `MigrationVerdicts.UnitFails` | internal/store/v5_legacy_migration.go:753-903 | exactly when a group's accounts end the planning with an error rather than a conflict |
| `MigrationVerdicts.UnitIs` | internal/store/v5_legacy_migration.go:801-903 | what a planned group still has to create: every snapshot and record its site's account lacks, and no other |
| `MigrationStore.Store.ApplyLegacyMigration` | internal/store/v5_legacy_migration.go:284-323 | the migration transaction: plan changed, blocked, nothing to do, or the whole new state |
| `MigrationStore.PlaceGroups` | internal/store/v5_legacy_migration.go:1291-1389 | the loops over groups and upstreams place every upstream on its group's site |
| `MigrationStore.DepositAccounts` | internal/store/v5_legacy_migration.go:1462-1510 | the loop over account units |
| `MigrationStore.MigrateModels` | internal/store/v5_legacy_migration.go:1391-1458 | the loop over routes |
| `MigrationTheorems.PlacedOk` | internal/store/v5_legacy_migration.go:570-592 | after placing, every upstream is mapped and every group to one site |
| `MigrationTheorems.PlanAfterApply` | internal/store/v5_legacy_migration.go:713-716 | the plan rebuilt after any successful apply is empty and needs no force; already applied or a hard conflict, exactly as the created origins are stable |
| `MigrationTheorems.MigrateTwice` | internal/store/v5_legacy_migration.go:284-323 | a second migration changes nothing |
| `MigrationTheorems.FixedPoint` | internal/store/v5_legacy_migration.go:555-716 | with the stored forms really used, exactly when the second migration finds everything applied |
| `MigrationTheorems.ApplyKeepsSchema` | internal/store/v5_legacy_migration.go:1266-1460 | applying keeps keys and references in order |
| `MigrationEffects.ModelsPublished` | internal/store/v5_legacy_migration.go:1391-1454 | after any successful apply every unmapped route has a new model of its own under its trimmed name, whose rows are its first routable target on each site, on the sites the mapping gives, in legacy order; older models are as before |
| `MigrationEffects.UpstreamsPlaced` | internal/store/v5_legacy_migration.go:1291-1389 | what was mapped stays; upstreams of one origin end up on one site, and a group that was not there before on a new one of its own |
| `MigrationMoved.AccountsMoved` | internal/store/v5_legacy_migration.go:1462-1510 | the site of every upstream with an account has one that holds all its snapshots and usage: the one it had, grown, or a new one configured as the group's newest account |
| `MigrationMoved.PlanIsCreated` | internal/store/v5_legacy_migration.go:555-716 | exactly as many sites and models are created as announced, under the next ids, and as many route targets exactly when no route has two routable groups on one site |
| `MigrationCounts.AccountsAsPlanned` | internal/store/v5_legacy_migration.go:853-903 | conservation: exactly as many accounts, snapshots and usage records are added as announced |
| `MigrationVerdicts.BlockedExactly` | internal/store/v5_legacy_migration.go:301-303 | exactly when a call is blocked, told from the rows: a torn mapping, a missing secret, a taken name or stray target, contradicting accounts, or foreign sites or models without force |
| `MigrationSuccess.DepositsIff` | internal/store/v5_legacy_migration.go:1462-1510 | the account loop succeeds exactly when each unit can be stored and no two get in each other's way |
| `MigrationSuccess.RoutesIff` | internal/store/v5_legacy_migration.go:1391-1408 | the route loop succeeds exactly when the new names are not blank, not taken and distinct |
| `MigrationSuccess.AppliesIff` | internal/store/v5_legacy_migration.go:1266-1460 | the transaction commits exactly when no other insert is refused and accounts and names fit |
| `MigrationSuccess.VerdictsAre` | internal/store/v5_legacy_migration.go:284-323 | for every call each of the five verdicts, and exactly when it is given |
| `MigrationSuccess.OnlyAppliedChanges` | internal/store/v5_legacy_migration.go:284-323 | only the verdict `Applied` changes the state, and then as the transaction says |
| `MigrationIdle.EmptyPlan` | internal/store/v5_legacy_migration.go:69-73 | the plan is empty exactly when all routes are mapped, no account has rows to move, and every unmapped upstream brings nothing to a group that has its site |
| `MigrationIdle.AppliedIsMapped` | internal/store/v5_legacy_migration.go:713-716 | a preview says already applied exactly when nothing conflicts, all is mapped and all accounts are moved |
| `MigrationIdle.NothingToDoMeans` | internal/store/v5_legacy_migration.go:304-309 | a call that finds nothing to do means that all is mapped exactly when no upstream was overlooked |
| `MigrationIdle.Latecomer` | internal/store/v5_legacy_migration.go:304-309 | after everything was applied, an upstream that joins a group with nothing to migrate is not mapped by any call, however often it is repeated |
| `MigrationIdle.LeftBehind` | internal/store/v5_legacy_migration.go:304-309 | the same from an empty database: two upstreams of one origin, the second left behind |
| `MigrationExample.OneAccount` | internal/store/v5_legacy_migration.go:1462-1510 | a database of one account for which the first migration succeeds and the second depends on its origin |
| `MigrationExample.SpaceBeforeSlash` | internal/store/v5_legacy_migration.go:1485 | a legacy row stored by its own writers, whose path ended in spaced slashes, blocks the second migration |
| `MigrationExample.TwoAccountsForOneSite` | internal/store/v5_legacy_migration.go:1462-1490 | a database that the migration itself made, on which a preview without conflicts ends in an error on every call |
| `Fingerprint.DecodeEncode` | internal/store/v5_legacy_migration.go:517-523 | the framing is self-delimiting: a decoder inverts it for any frames |
| `Fingerprint.EncodeDecode` | internal/store/v5_legacy_migration.go:517-523 | whatever decodes is the encoding of what it decodes to |
| `Fingerprint.ValuesAreTold` | internal/store/v5_legacy_migration.go:531-553 | two values share a frame exactly when they are equal up to booleans being integers |
| `Fingerprint.BigEndianAt` | internal/store/v5_legacy_migration.go:517-529 | every byte of a written length or number |
| `Fingerprint.ValueBytes` | internal/store/v5_legacy_migration.go:531-553 | the code, length and payload bytes of each kind of value |
| `Fingerprint.OneTableFrames` | internal/store/v5_legacy_migration.go:403-453 | the frame codes of a whole stream in their order |
| `Fingerprint.InputTells` | internal/store/v5_legacy_migration.go:403-453 | two states feed the hash the same bytes exactly when version, tables and manifest are the same |
| `Fingerprint.Encoder.WriteFrame` | internal/store/v5_legacy_migration.go:517-523 | three writes make one frame |
| `Fingerprint.Encoder.WriteSqliteValue` | internal/store/v5_legacy_migration.go:531-553 | the frame of each kind of value |
| `Fingerprint.Encoder.WriteTable` | internal/store/v5_legacy_migration.go:406-444 | name, column count, columns, rows and end of one table |
| `Fingerprint.Encoder.WritePlan` | internal/store/v5_legacy_migration.go:403-453 | the whole input |
| `ProbeRuns.AllotIndices` | internal/gateway/v3_probe.go:71-80 | base indices are prefix sums of the spans |
| `ProbeRuns.RangesAreDisjoint` | internal/gateway/v3_probe.go:71-80 | the ranges of different targets do not meet |
| `ProbeRuns.IndicesNeverClash` | internal/gateway/v3_probe.go:82-112 | no interleaving of workers uses an index twice or leaves its target's range; a success is its target's last attempt |
| `ProbeRuns.NoKeyPassedOver` | internal/gateway/v3_probe.go:160-230 | in any interleaving the keys of a target are tried in order and none is passed over |
| `ProbeRuns.EachCountedOnce` | internal/store/v4_runs.go:128-141 | the grouped query counts every observed target exactly once |
| `ProbeRuns.BestAttemptCounts` | internal/store/v4_runs.go:128-141 | a target counts by its best attempt: success before failure before skipped |
| `ProbeRuns.CountsAddUp` | internal/store/v4_runs.go:142-154 | success, failure and skipped add up to the target count; exactly when a run succeeds, partly succeeds or fails |
| `ProbeRuns.EveryTargetIsAccountedFor` | internal/gateway/v3_probe.go:71-130 | whatever the workers did, a run accounts for exactly the targets it started with |
| `ProbeRuns.ProbeRun.CompleteProbeRun` | internal/store/v4_runs.go:104-164 | completes a running run once and leaves a finished one alone |
| `ProbeRuns.ProbeRun.CancelProbeRun` | internal/store/v4_runs.go:166-183 | cancels only a running run |
| `Pagination.ListPage` | internal/store/logs.go:314-350 | one page, read with one row more than asked for, and its errors |
| `Pagination.RefusedPages` | internal/store/logs.go:314-324 | exactly which limits and cursors are refused, and with which error first |
| `Pagination.QueryIs` | internal/store/logs.go:453-456 | the query returns exactly the matching rows past the cursor, in strict order |
| `Pagination.RestOfListing` | internal/store/logs.go:453-456 | the rows past a page's last row are the rest of the listing, whatever the ties |
| `Pagination.PagesAreFull` | internal/store/logs.go:325-349 | every page but the last is full and carries a whole cursor; there is a next page exactly when rows are left |
| `Pagination.PagesAreExact` | internal/store/logs.go:314-350 | following the cursors ends and yields the filtered log with no row lost or repeated, in exactly as many pages as its length needs, for every limit |
| `Pagination.NegativeTimesCannotBeResumed` | internal/store/logs.go:405-407 | a log that cannot be paged through |
| `Reorder.Store.ReorderChildren` | internal/store/v3_published.go:388-422 | commits exactly when the revision is current and the ids permute the children; otherwise nothing changes |
| `Reorder.Pigeonhole` | internal/store/v3_published.go:402-417 | equal count, no duplicate and membership leave no child out |
| `Reorder.ReorderIsPermutation` | internal/store/v3_inference.go:324-360 | positions become a bijection onto 0..n-1, and reading back in order gives the submitted list |

## Left out

- HTTP handlers, downstream authentication and rate windows, the web interface, configuration: no deep invariant.
- Network, DNS, TLS, the dialer, encryption, hashing and random ids: foreign calls; a request id is a new value.
- The stream watchdog's timers: a timeout is an outcome, and no timing is claimed.
- SQLite retries, write-ahead logging, message texts, attempt log rows and cached cost fields of a request row.
- Decimal parsing and exchange-rate lookup: rates and the rate of exchange are given as exact numbers.
- The choice of effective bands by price period: a snapshot's bands are given.
- JSON, event-stream line and error-message parsing: uninterpreted functions of the bytes, or given classifications.
- Case folding beyond ASCII letters in adapter and model names.
- The legacy failover loop and the SQL breaker of the first generation: superseded, and different on open circuits.
- Endpoints, credentials and site models created by the migration: the planner's counts of them are modelled, but what the applier inserts is not, and a refused insert is a parameter. The names of new sites and credentials are left out too.
- Copied target health, snapshot and usage row order, and timestamps of the migration: they do not enter a later plan.
- The SHA-256 of a fingerprint and the JSON of its manifest: the manifest is a byte string.
- Inference credential cooling, site accounts, model discovery, routing profiles: outside the request's accounting.
- `ListRequestLogs` by offset, request summaries and the text of the filter clauses: the filter is a predicate on rows.
- StreamProxy.ProxyIsTransparent: does not include the response headers and flushes, which accompany the first write.
- PermitSafety.LeasesAreExclusive: speaks of grants recorded in the health row; how long a worker really holds one is not modelled.
- ProbeRuns.EveryTargetIsAccountedFor: assumes no target is deleted during the run; ProbeRuns.CountsAddUp covers runs where some are.
