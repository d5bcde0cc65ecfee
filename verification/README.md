# EventKart: a verified model of the stateful core

The repository is an event-listing marketplace: organizers register and are reviewed, get a payment account, publish
sports events, and the public reads those events through a cache. This project models the parts of it that carry state
or arithmetic worth proving, and proves what they keep over whole histories.

Each stateful component comes in two layers. A value-level step function says what one route, transaction or Redis
operation does, and the theorems are about arbitrary sequences of such steps. A class does the same statement by statement,
as the source does, and carries the step system with it: `MarketplaceStore.Store.Serve`, `SlugStore.Store`, every command
of `CacheRedis.Client` and every operation of `AuthService.AuthStore` are proved to take exactly one step and to keep the
invariant or the run so far (a slug rename, unless its caller supplies the current slug; see below), so each theorem about
runs is a theorem about those objects.

The theorems are of two kinds. Safety laws say what no history can break. Outcome laws (`EventOutcomes.dfy`, and the lemmas
named `...TakesEffect`, `...Iff` or `...Is...` elsewhere) say when each operation goes through, what the whole new state is
and what a visitor, a caller or the next reader then gets, in terms that do not mention the step functions.

| file | what it models |
|---|---|
| `Slugs.dfy` | the slug normaliser, against a reference reading of it (join the runs of letters and digits) |
| `SlugTables.dfy`, `SlugHistory.dfy`, `SlugStore.dfy` | slug reservation, renames with redirect rows, public lookup, over all histories |
| `SingleFlight.dfy`, `CacheRedis.dfy` | the single-flight cache: interleaved callers over one key and one lock with a clock; the Redis commands, the polling loop and the whole call |
| `OrganizerReview.dfy` | an organizer's documents, policy acceptance across version changes, and review decision |
| `LinkedAccount.dfy` | payment-account jobs: read, compare-and-set claim, API call, unconditional final writes, lost replies |
| `EventLifecycle.dfy` | one event: categories, prices, images, readiness, publication and review |
| `Marketplace.dfy`, `MarketplaceStore.dfy` | all of these and the events' slugs on shared tables, with the account jobs interleaved |
| `MarketplaceLaws.dfy`, `PaymentSafety.dfy` | what every reachable state guarantees; when a live event can lose its payment account |
| `EventOutcomes.dfy` | what every creation, edit, publication, approval, rejection and unpublication of an event does |
| `Otp.dfy`, `Sessions.dfy`, `AuthService.dfy` | one-time passwords; login, email verification and logout interleaved one operation at a time |
| `Queries.dfy`, `Listing.dfy` | the batched public listing against the per-event detail page |
| `PublicView.dfy` | the lifecycle carried through to both pages: what the public sees of a published event |
| `Pricing.dfy`, `EarlyBird.dfy`, `Registration.dfy`, `TickChain.dfy`, `BusinessDays.dfy` | prices, the countdown and registration timers, the review deadline |

Where the code does not do what one would hope, the project says so exactly:

* `updateEventSlug` accepts a caller-supplied current slug. `SlugHistory.ClaimedSlugSafeIff` gives the exact condition under
  which the redirect history survives; by `SlugHistory.StaleClaimLosesSlug` a stale one leaves a slug the event held leading
  nowhere. The draft edit, the rename the application performs, reads the slug from the row it has locked.
* A leader that outlives its lock shares the leader section with the next caller. A caller about to try the lock joins a
  leader exactly when the leader is late (`SingleFlight.OverlapIffLate`, `SingleFlight.NewcomerOverlapsIffLate`); such a run
  exists for every lock time (`SingleFlight.LateLeaderOverlaps`).
* Approving an organizer while a linked-account job is open lets a published event end up without an active account.
  `PaymentSafety.ApprovalSafeIff`: in every reachable state, an approval keeps the account under every later live event
  exactly when no job is open at that moment, as long as applied writes are acknowledged.
  `LinkedAccount.LostReplyTakesActiveBack`: a success write whose reply is lost is overwritten with `failed` in any case.
* The guard that skips re-accepting a policy looks at any row, the status at the latest one. With the versions shipped an
  acceptance always takes effect (`OrganizerReview.AcceptAlwaysTakesEffect`), and also over version changes without a
  rollback; after a bump and a rollback it never does (`OrganizerReview.RollbackBlocksAcceptance`).
* The early-bird countdown skips a registration close or an event end that does not parse, the registration state takes it as
  passed: they agree exactly when both can be read (`EarlyBird.LabelAgreesIffBoundsParse`).
* Web and server prices differ at the early-bird deadline itself, and only there (`Pricing.WebAndServerAgree`).

## Model

| member | source | states |
|---|---|---|
| Slugs.SlugPattern | packages/shared/src/utils/slug.ts:4 | the character test used throughout is exactly the published slug pattern |
| Slugs.ToSlugJoinsWords | packages/shared/src/utils/slug.ts:61-69 | the chain of replacements and trims gives the maximal runs of letters and digits of the folded title joined by single hyphens; empty exactly when there is no run |
| Slugs.ToSlugByCharacter | packages/shared/src/utils/slug.ts:61-69 | a slug is decided character by character: letters and digits stay in lower case, sixteen Latin letters are spelled out, apostrophes and accents vanish, runs of anything else separate words |
| Slugs.TruncateLongestPrefix | packages/shared/src/utils/slug.ts:71-73 | truncation of a slug keeps its longest prefix that is a slug and fits |
| Slugs.NormalizeIsSlug | packages/shared/src/utils/slug.ts:75-92 | for every title, fallback and bound of at least 1 the result is a slug of 1 to maxLength characters |
| Slugs.NormalizeIsLongest | packages/shared/src/utils/slug.ts:75-92 | the result is the longest slug that fits of the title's words, of the fallback's when the title has none, or of "event" |
| Slugs.NormalizeIdentity | packages/shared/src/utils/slug.ts:75-92 | slugs that already fit are left alone |
| Slugs.NormalizeIdempotent | packages/shared/src/utils/slug.ts:75-92 | normalising twice is normalising once, even with another fallback or a larger bound |
| Slugs.AppendIsSlug | packages/shared/src/utils/slug.ts:94-118 | a suffix is accepted exactly when it is a positive safe integer that leaves room for a character; the result is a slug within the bound |
| Slugs.AppendResult | packages/shared/src/utils/slug.ts:94-118 | an accepted result is the longest slug of the words that leaves room, a hyphen, and digits naming the suffix |
| Slugs.AppendInjective | packages/shared/src/utils/slug.ts:94-118 | equal suffixed slugs have equal suffixes, whatever was truncated |
| SlugTables.CandidateParses | apps/api/src/modules/events/service.ts:2234-2251 | no candidate of a reservation is ever rejected by the slug parser |
| SlugTables.CandidateIs | apps/api/src/modules/events/service.ts:2234-2251 | the candidates in order: the title's own slug, then the same cut short and numbered 2, 3 and so on |
| SlugTables.CandidatesDistinct | apps/api/src/modules/events/service.ts:2246-2251 | candidates from attempt 2 on are pairwise distinct |
| SlugTables.SuffixedNotReserved | apps/api/src/modules/organizer/slug-service.ts:15-46 | a suffixed organizer slug is never a reserved name |
| SlugTables.ReserveFirstFree | apps/api/src/modules/events/service.ts:2290-2309 | reservation returns the first free candidate, conflicts exactly when none is free, and refuses bad attempt counts |
| SlugTables.ReserveIsFree | apps/api/src/modules/organizer/slug-service.ts:101-121 | a reserved slug parses, is not a reserved name, and no other resource holds or held it in the redirect table |
| SlugTables.ReserveSucceeds | apps/api/src/modules/events/service.ts:2290-2309 | reservation succeeds whenever others hold at most maxAttempts - 2 slugs |
| SlugHistory.HistorySound | apps/api/src/modules/events/service.ts:2319-2432 | over every history of creates and renames, active and old slugs stay disjoint, owners unique, every redirect row points at its resource's current slug, and the slugs a row ever held are its active slug and its old slugs |
| SlugHistory.EverySlugLeadsHome | apps/api/src/modules/events/public-detail-service.ts:397-484 | any slug a resource ever held leads to that resource, directly or by one redirect to a slug that answers directly, and no other resource ever holds it |
| SlugHistory.OneHop | apps/api/src/modules/events/public-detail-service.ts:397-432 | the exact lookup answer for every slug ever held: found, one redirect to the current slug, or missing when not public |
| SlugHistory.NeverHeldIsMissing | apps/api/src/modules/events/public-detail-service.ts:397-484 | after every history a slug nobody ever held leads nowhere |
| SlugHistory.CreateTakesEffect | apps/api/src/modules/events/service.ts:1056-1126 | a creation gives its row the reserved slug, where it is found, and touches nothing else; without a reservation it does nothing |
| SlugHistory.RenameTakesEffect | apps/api/src/modules/events/service.ts:2387-2432 | a rename gives the row the reserved slug, where it is found, sends the previous one there, and leaves other rows' slugs alone; without a reservation it does nothing |
| SlugHistory.NoOtherHolder | apps/api/src/modules/events/service.ts:2253-2288 | two resources never share a slug, not even at different times |
| SlugHistory.UpsertNeverConflicts | apps/api/src/modules/events/service.ts:2319-2368 | the upsert of a rename never meets an existing row |
| SlugHistory.ClaimedSlugSafeIff | apps/api/src/modules/events/service.ts:2387-2432 | a rename from a caller-supplied slug keeps the history exactly when the call is refused, or the claim is the row's own slug, or the slug the reservation answers, or one of the row's old slugs while the reservation answers its present one |
| SlugHistory.StaleClaimLosesSlug | apps/api/src/modules/events/service.ts:2387-2432 | for any three slugs: created as a, renamed to b, then renamed to c by a request that still claims a; from then on b, which the row held, is looked up as missing, whatever is public |
| SlugStore.Store.ReserveUnique | apps/api/src/modules/organizer/slug-service.ts:101-121 | the attempt loop computes the reservation function |
| SlugStore.Store.Record | apps/api/src/modules/organizer/slug-service.ts:135-183 | delete, repoint and upsert together perform the redirect step |
| SlugStore.Store.Insert | apps/api/src/modules/organizer/service.ts:101-118 | creating a row takes the history one creation further and keeps its invariant |
| SlugStore.Store.UpdateSlug | apps/api/src/modules/events/service.ts:2387-2432 | one rename transaction performs the rename step, answer included, and keeps the invariant when the current slug is not supplied |
| SingleFlight.OnlyHolderReleases | apps/api/src/lib/cache-stampede.ts:55-61 | a live lock leaves Redis only through its own holder's release |
| SingleFlight.CachedValueIsALeadersResult | apps/api/src/lib/cache-stampede.ts:161-235 | a cached value was written by a caller that had acquired the lock and returns that value itself, or by the sitemap worker on its key; so never by a failed producer, a follower or a fail-open caller |
| SingleFlight.ReturnedValueIsOwnOrCached | apps/api/src/lib/cache-stampede.ts:161-235 | every returned value is the caller's own or was readable in the cache during its call |
| SingleFlight.AtMostOneLeader | apps/api/src/lib/cache-stampede.ts:93-114 | if every leader finishes within lockTtlMs, at most one caller is in the leader section |
| SingleFlight.OverlapIffLate | apps/api/src/lib/cache-stampede.ts:93-114 | in every run whose leaders were punctual so far, a caller about to try the lock joins the leader in its section exactly when the leader has held it for lockTtlMs or longer |
| SingleFlight.NewcomerOverlapsIffLate | apps/api/src/lib/cache-stampede.ts:161-199 | the same for a caller that arrives, misses an invalidated key and tries the lock |
| SingleFlight.LateLeaderOverlaps | apps/api/src/lib/cache-stampede.ts:93-114 | a run in which two callers are in the section, for every lock time |
| SingleFlight.BoundedStaleness | apps/api/src/lib/cache-stampede.ts:196-209 | a cached value that missed a commit at m is unreadable from m + d + ttl on, whether or not the invalidating DEL succeeded, if no writer takes more than d |
| SingleFlight.WrittenValueIsRead | apps/api/src/lib/cache-stampede.ts:196-209 | what a leader or the worker writes is in the cache for exactly ttlMs until another write or a deletion, and every caller that reads or polls in that time ends with it |
| SingleFlight.StaleOnlyFromInFlight | apps/api/src/lib/cache-stampede.ts:237-249 | after an invalidation that reached Redis, a cached value misses an earlier commit only if its producer was already under way with such a snapshot |
| SingleFlight.ReleaseHandsOver | apps/api/src/lib/cache-stampede.ts:55-61 | a release of one's own live lock lets the next caller acquire it |
| SingleFlight.WhyAlone | apps/api/src/lib/cache-stampede.ts:161-235 | a caller leaves the cache aside only when Redis failed, an entry did not parse, or it has waited its time |
| SingleFlight.WorkerWrites | apps/api/src/queues/sitemap-regen.ts:160-180 | the sitemap worker reads and writes its key without the lock; a failure writes nothing |
| CacheRedis.Client.TryAcquireLock | apps/api/src/lib/cache-stampede.ts:93-101 | SET NX PX is the protocol's step: acquires exactly when no live lock is there, applied or not behind an error |
| CacheRedis.Client.ReleaseLock | apps/api/src/lib/cache-stampede.ts:55-61 | the release script is the protocol's step: deletes exactly when the live token is the caller's |
| CacheRedis.Client.WaitForLeader | apps/api/src/lib/cache-stampede.ts:131-159 | whatever the others do and however long commands take: at least one poll, at most max(1, ceil(timeout / interval)), at most timeout of requested sleep; it ends with the value polled, and without one only after the time is up, a failed poll or an entry that does not parse |
| CacheRedis.Client.RunSingleFlight | apps/api/src/lib/cache-stampede.ts:161-235 | one whole call, others acting between any two of its operations and any command failing, is a run of the protocol; it returns its own producer's result, its failure, or a value readable in the cache during the call; if it led, its result has been put into the cache for ttlMs and its lock is gone, unless Redis failed |
| OrganizerReview.GetPolicyStatus | apps/api/src/modules/organizer/policy-service.ts:108-159 | the one-pass map holds the latest acceptance of each policy; all-accepted exactly when both latest rows are current |
| OrganizerReview.LatestOf | apps/api/src/modules/organizer/policy-service.ts:133-141 | the row kept for a policy is the first of its rows with the latest instant |
| OrganizerReview.AcceptTakesEffectIff | apps/api/src/modules/organizer/policy-service.ts:33-99 | for any current versions, accepting a policy shows it as accepted exactly when no current-version row lies under a later row of another version |
| OrganizerReview.AcceptTakesEffectWithoutRollback | apps/api/src/modules/organizer/policy-service.ts:33-99 | over every history of version changes and acceptances without a rollback to a version accepted before, accepting takes effect |
| OrganizerReview.RollbackBlocksAcceptance | apps/api/src/modules/organizer/policy-service.ts:55-66 | any policy, accepted, bumped, accepted again and rolled back: it shows as not accepted, and accepting it again inserts nothing |
| OrganizerReview.AcceptAlwaysTakesEffect | packages/shared/src/constants/policy.ts:18-21 | with the versions shipped, accepting takes effect after every history of an organizer |
| OrganizerReview.AcceptLeavesOthers | apps/api/src/modules/organizer/policy-service.ts:33-99 | accepting some policies leaves the status of the others as it was |
| OrganizerReview.FourTypesUploaded | apps/api/src/modules/organizer/document-service.ts:350-351 | counting four uploaded types is asking for each of the four document types |
| OrganizerReview.HistoryKeepsInv | apps/api/src/modules/organizer/document-service.ts:335-413 | over every serial history of document, policy and review calls: pending_review means ready and stamped, pending_documents not ready and unstamped, isVerified iff approved, a rejection reason iff rejected, one uploaded document per type, and approved is absorbing |
| OrganizerReview.ActKeepsInv | apps/api/src/modules/admin/verification-service.ts:245-281 | each call keeps that invariant |
| OrganizerReview.ActTakesEffect | apps/api/src/modules/organizer/document-service.ts:120-413 | each document, policy and review call goes through exactly under its guard and then leaves documents, acceptances, review columns and account as stated; a complete application becomes pending, a decision is written down; a refused call changes nothing but an oversized upload's own row |
| LinkedAccount.WorkKeepsExclusive | apps/api/src/modules/payment/razorpay-account-service.ts:78-102 | the compare-and-set leaves at most one open claim, only while the status is pending, and no job step whose reply arrives takes an active status away |
| LinkedAccount.ActiveStays | apps/api/src/modules/payment/razorpay-account-service.ts:78-160 | for an approved organizer in that state, any interleaving of routes and jobs with acknowledged writes keeps an active account active |
| LinkedAccount.ActiveForGoodIff | apps/api/src/modules/payment/razorpay-account-service.ts:148-218 | right after an approval, activation is final in every continuation with acknowledged writes exactly when no job was open |
| LinkedAccount.LostReplyTakesActiveBack | apps/api/src/modules/payment/razorpay-account-service.ts:148-218 | a success write applied but not acknowledged is followed by the catch block's failed |
| LinkedAccount.OutcomeWritten | apps/api/src/modules/payment/razorpay-account-service.ts:26-42 | the status and account number written for each reply of the provider by name, for a disabled client, a failure and a crash |
| LinkedAccount.ClaimWinsIff | apps/api/src/modules/payment/razorpay-account-service.ts:62-102 | a job wins the claim exactly when what it read was not a linked account and the row is free; otherwise it ends without a write |
| LinkedAccount.BecomesActiveIff | apps/api/src/modules/payment/razorpay-account-service.ts:148-160 | a step makes an account active exactly when it is a job's success write with the reply "activated" |
| LinkedAccount.ActiveOnlyIfActivated | apps/api/src/modules/payment/razorpay-account-service.ts:148-160 | over any interleaving an account is active only if it was, or a job has had that reply |
| LinkedAccount.WholeJobLinksIff | apps/api/src/modules/payment/razorpay-account-service.ts:44-160 | an undisturbed job links the account from not started, failed and needs action, and from no other state |
| EventLifecycle.CoverageIsOneEach | apps/api/src/modules/events/service.ts:536-540 | equal length plus coverage alone mean exactly one tier per category and no stray tier |
| EventLifecycle.EditKeepsInv | apps/api/src/modules/events/service.ts:1536-1715 | every edit keeps: distinct categories with valid spots, no tiers or exactly one per category, one uploaded image per kind, consistent dates |
| EventLifecycle.LiveIsFrozen | apps/api/src/modules/events/event-image-service.ts:69-78 | while published or under review, no edit changes schedule, categories, prices or hero images; under review not even the policy texts |
| EventLifecycle.PricedCategoriesFrozen | apps/api/src/modules/events/service.ts:1578-1588 | once priced, an event keeps its categories, up to their spots, and stays priced |
| EventLifecycle.ReadyEventIsConfigured | apps/api/src/modules/events/service.ts:522-637 | an event that passes every readiness check has one tier per category, a hero, a verified organizer and an active account |
| EventLifecycle.PricedMeansActive | apps/api/src/modules/events/service.ts:532-541 | stored prices are positive at every instant, so an event has an active price exactly when it is priced |
| EventLifecycle.RefusalReason | apps/api/src/modules/events/service.ts:661-712 | which of the six refusals a draft gets, exactly, in terms of the organizer, the slug, the start, the pricing and the event's own texts and hero; the end-date item never decides |
| EventLifecycle.PolicyRoutesAgree | apps/api/src/modules/events/service.ts:1304-1362 | on a published event the policies route and the published patch with both texts do the same |
| EventLifecycle.MoveKeepsInv | apps/api/src/modules/events/service.ts:1745-2189 | publish, unpublish, approve and reject keep the event invariant |
| EventLifecycle.GoingLiveNeedsOrganizer | apps/api/src/modules/events/service.ts:1812-1821 | an event goes live only under a verified organizer with an active account |
| EventLifecycle.FirstPublicationRule | apps/api/src/modules/events/service.ts:1836-1862 | the first-publication stamp is written once; without an approval only when four events were published before |
| Marketplace.RunKeepsInv | apps/api/src/modules/events/service.ts:1745-2189 | the joint invariant of organizers, accounts, events, slug tables and publication log holds over every run of the routes and the account jobs |
| MarketplaceLaws.LiveEventsAreComplete | apps/api/src/modules/events/service.ts:522-637 | in every reachable state a published or under-review event has a category, exactly one tier for each, exactly one uploaded hero, an approved organizer, and an active account unless a job was open at that organizer's approval or lost a reply |
| MarketplaceLaws.LiveEventsAreActivated | apps/api/src/modules/payment/razorpay-account-service.ts:148-160 | behind every live event of a clean account stands a job of its organizer that had the reply "activated" |
| PaymentSafety.ApprovalSafeIff | apps/api/src/modules/payment/razorpay-account-service.ts:78-218 | in every reachable state, approving an organizer under review keeps every live event it will ever have on an active account, in every continuation with acknowledged writes, exactly when no account job is open at that moment |
| PaymentSafety.LiveAccountsSafeIff | apps/api/src/modules/payment/razorpay-account-service.ts:78-218 | the same from any sound state with an approved organizer whose account is not started and who has no live event; the losing run is built step by step |
| MarketplaceLaws.FirstFourByApproval | apps/api/src/modules/events/service.ts:369-397 | the first four events of any organizer to be published were each first published by an approval; the log naming them is exactly the set of events with a first publication |
| MarketplaceLaws.PublicationDates | apps/api/src/modules/events/service.ts:1845-1862 | publishedAt is set exactly while published and not before firstPublishedAt; tiers, drafts included, are absent or one per category |
| MarketplaceLaws.FixedForGood | apps/api/src/modules/events/service.ts:2059-2071 | in every continuation a first publication keeps its instant and a priced event its categories |
| MarketplaceLaws.EventSlugsLeadHome | apps/api/src/modules/events/public-detail-service.ts:397-484 | any slug an event held at any point of a run leads, while the event is public, to that event in at most one redirect, and no other event ever holds it |
| MarketplaceLaws.SlugConflictNeverHappens | apps/api/src/modules/events/service.ts:542-545 | in no reachable state is a publication refused for its slug |
| MarketplaceLaws.StoredPricesAgree | apps/api/src/modules/events/service.ts:322-335 | for every stored tier, page and server charge the same positive price at every instant but the deadline |
| MarketplaceLaws.SchedulesPassAllStates | packages/shared/src/schemas/event.ts:167-239 | every stored event keeps an accepted schedule, so with a registration window its page passes through all four registration states |
| EventOutcomes.ApprovalTakesEffect | apps/api/src/modules/events/service.ts:2016-2096 | in every reachable state an approval publishes the event now, keeps or sets the first-publication stamp, and its slug finds it; or it is refused for the account, the start or a policy text, and nothing changes |
| EventOutcomes.ReadinessLists | apps/api/src/modules/events/service.ts:522-637 | the readiness of a reachable event, item by item in terms of its rows: any pricing there is complete and active, the slug item never fails; review exactly below four first publications |
| EventOutcomes.PublicationTakesEffect | apps/api/src/modules/events/service.ts:1745-1886 | in every reachable state a draft goes to review below four first publications and public from four on, or is refused for the first obstacle and nothing changes |
| EventOutcomes.UnpublicationTakesEffect | apps/api/src/modules/events/service.ts:1939-1998 | an unpublished event is a draft again that no slug finds; its first publication stays |
| EventOutcomes.RejectionTakesEffect | apps/api/src/modules/events/service.ts:2136-2189 | a rejected event is a draft again, otherwise as it was |
| EventOutcomes.OtherMovesDoNothing | apps/api/src/modules/events/service.ts:1745-2189 | any other actor or status: nothing changes and no transition is reported |
| EventOutcomes.CreationTakesEffect | apps/api/src/modules/events/service.ts:1056-1126 | a creation goes through exactly for a known organizer, an accepted schedule, a new identifier and a free slug; then there is one more draft with nothing configured, hidden |
| EventOutcomes.EditTakesEffect | apps/api/src/modules/events/service.ts:1143-1715 | in every reachable state the owner's edit goes through exactly when acceptable and a new title's slug can be had; then the row is as edited, each value in its own column, the slug renamed, and nothing else changed |
| EventOutcomes.OnlyTheOwnerEdits | apps/api/src/modules/events/service.ts:1143-1715 | nobody else's edit does anything |
| MarketplaceStore.Store.Serve | apps/api/src/modules/events/service.ts:1056-2189 | any request or job step, at any later instant, performed by the statements below it, is exactly one step of the marketplace and keeps its invariant |
| MarketplaceStore.Store.RegisterOrganizer | apps/api/src/modules/organizer/service.ts:83-130 | one profile per user, starting with pending documents |
| MarketplaceStore.Store.MaybeUpdateOrganizerVerificationStatus | apps/api/src/modules/organizer/document-service.ts:335-413 | the re-evaluation performs the status step |
| MarketplaceStore.Store.RequestDocumentUpload | apps/api/src/modules/organizer/document-service.ts:51-83 | a pending row under a new identifier |
| MarketplaceStore.Store.ConfirmDocumentUpload | apps/api/src/modules/organizer/document-service.ts:120-198 | guard, oversize branch, replace, upload and re-evaluation perform the route step |
| MarketplaceStore.Store.DeleteVerificationDocument | apps/api/src/modules/organizer/document-service.ts:266-306 | deletion and re-evaluation perform the route step |
| MarketplaceStore.Store.AcceptPolicies | apps/api/src/modules/organizer/routes.ts:331-351 | insertion of the missing rows and re-evaluation perform the route step |
| MarketplaceStore.Store.ApproveOrganizer | apps/api/src/modules/admin/verification-service.ts:245-281 | approval only from pending_review, with the account status reset |
| MarketplaceStore.Store.RejectOrganizer | apps/api/src/modules/admin/verification-service.ts:385-420 | rejection only from pending_review, with its reason |
| MarketplaceStore.Store.FetchOrganizer | apps/api/src/modules/payment/razorpay-account-service.ts:44-60 | the read a job starts with |
| MarketplaceStore.Store.ClaimLinkedAccount | apps/api/src/modules/payment/razorpay-account-service.ts:62-102 | the idempotency check on the row read earlier, then the compare-and-set |
| MarketplaceStore.Store.WriteCreated | apps/api/src/modules/payment/razorpay-account-service.ts:148-160 | the success write: the status the provider's reply stands for; followed by the catch block when its reply is lost |
| MarketplaceStore.Store.FinishLinkedAccount | apps/api/src/modules/payment/razorpay-account-service.ts:104-218 | the last write of a job for each API outcome, unconditional; on success the status the provider's reply stands for |
| MarketplaceStore.Store.CreateDraftEvent | apps/api/src/modules/events/service.ts:1056-1126 | an accepted schedule under an organizer profile reserves a slug and gives an unpublished, unpriced draft; the slug history goes one creation further |
| MarketplaceStore.Store.UpdateDraftEvent | apps/api/src/modules/events/service.ts:1143-1265 | title and schedule of a draft, and of nothing else, are replaced, with a rename exactly when the title changes, all or nothing; each refusal in the source's order |
| MarketplaceStore.Store.ReplaceEventCategories | apps/api/src/modules/events/service.ts:1536-1605 | owner, draft and unpriced guards, then new rows with default spots |
| MarketplaceStore.Store.ReplaceEventPricing | apps/api/src/modules/events/service.ts:1632-1702 | guards and the coverage validator, then the new tiers |
| MarketplaceStore.Store.UpdateEventCategoryCapacity | apps/api/src/modules/events/service.ts:2596-2678 | draft only; remaining spots clamped to the new total unless given |
| MarketplaceStore.Store.UpdateEventPolicies | apps/api/src/modules/events/service.ts:1304-1362 | non-blank texts, on drafts and published events |
| MarketplaceStore.Store.UpdatePublishedEvent | apps/api/src/modules/events/service.ts:2476-2560 | only differing low-risk fields of a published event are written; null and blank texts are accepted |
| MarketplaceStore.Store.RequestEventImageUpload | apps/api/src/modules/events/event-image-service.ts:165-229 | a pending row; a hero only on a draft |
| MarketplaceStore.Store.ConfirmEventImageUpload | apps/api/src/modules/events/event-image-service.ts:263-373 | the kind's other open or uploaded images become replaced, then this one uploaded; an invalid object is deleted |
| MarketplaceStore.Store.DeleteEventImage | apps/api/src/modules/events/event-image-service.ts:453-501 | open or uploaded images only; a hero only on a draft |
| MarketplaceStore.BuildPublishReadiness | apps/api/src/modules/events/service.ts:522-637 | the eleven items fail exactly as the readiness function says, and review is required up to three published paid events |
| MarketplaceStore.Store.PublishEvent | apps/api/src/modules/events/service.ts:1745-1886 | the probe of the slug tables, both no-ops, the refusals with their code, and the two transitions |
| MarketplaceStore.Store.UnpublishEvent | apps/api/src/modules/events/service.ts:1939-1998 | only from published; clears publishedAt and keeps the first publication |
| MarketplaceStore.Store.AdminApproveEvent | apps/api/src/modules/events/service.ts:2016-2096 | only from under review and only when still ready; then the row is published as of now |
| MarketplaceStore.Store.AdminRejectEvent | apps/api/src/modules/events/service.ts:2136-2189 | back to draft, only from under review |
| Otp.Redis.StoreOtp | apps/api/src/lib/otp.ts:115-131 | a fresh code with no attempts and the full lifetime; other phones untouched |
| Otp.Redis.VerifyAndConsume | apps/api/src/lib/otp.ts:199-255 | the script performs the verify step on that phone alone |
| Otp.AnswerClosedForm | apps/api/src/lib/otp.ts:199-255 | the answer to every call between two stores, from the clock, the first matching guess and the call's position alone |
| Otp.OnceOnly | apps/api/src/lib/otp.ts:199-255 | after a success or max_attempts, and from the sixth call on, every answer is expired |
| Otp.MismatchCountdown | apps/api/src/lib/otp.ts:199-255 | the k-th wrong guess of a live code reports 5 - k left, the fifth max_attempts |
| Otp.ExpiryNeverLater | apps/api/src/lib/otp.ts:199-236 | the stored hash and the expiry instant never change while the key exists |
| Sessions.LoggedOutForGood | apps/api/src/modules/auth/service.ts:280-305 | a session deleted by a logout is never readable again, under any interleaving |
| Sessions.RolesOnlyRise | apps/api/src/modules/auth/email-verification-service.ts:173-207 | a user's role rank never decreases |
| Sessions.RefreshNeverExtends | apps/api/src/modules/auth/email-verification-service.ts:45-58 | no step changes a session's expiry after its creation |
| Sessions.EverySessionHasARow | apps/api/src/modules/auth/service.ts:231-272 | with no creation in flight every Redis session has its database row, unless its SET was applied behind an error or its compensating DEL failed |
| Sessions.RoleIffVerified | apps/api/src/modules/auth/email-verification-service.ts:173-207 | over every run a user starts as a participant and is an organizer exactly once an email of theirs has been verified; nobody is anything else |
| Sessions.SessionRoles | apps/api/src/modules/auth/email-verification-service.ts:45-58 | no session carries another role, and organizer only for a verified user |
| Sessions.SessionsLast | apps/api/src/modules/auth/service.ts:231-305 | a session whose creation is over is readable by its user until its expiry, its role never falling, unless a logout ends it for good |
| Sessions.NewSessionIsTheLogins | apps/api/src/modules/auth/service.ts:231-250 | a new session is the login's own user and looked-up role, for thirty days |
| AuthService.AuthStore.VerifyOtpAndCreateSession | apps/api/src/modules/auth/service.ts:152-272 | one whole login interleaved with anyone: if its operations succeed it succeeds, with an unrevoked row and a finished session of that user, of a role no lower than before, for thirty days or until a logout; a failed login leaves no session in Redis unless a reply was lost or the compensation failed |
| AuthService.AuthStore.CreateSession | apps/api/src/modules/auth/service.ts:231-272 | the dual write: success exactly when both writes were acknowledged, and then a row and a lasting session of the looked-up role; else cleaned up with the same exception |
| AuthService.AuthStore.VerifyEmailToken | apps/api/src/modules/auth/email-verification-service.ts:138-239 | one verification interleaved with anyone: at most this token is consumed, and always when usable throughout; on success the user is an organizer, and once the refresh is applied a session still readable says so with its old expiry |
| AuthService.AuthStore.ConsumeEmailToken | apps/api/src/modules/auth/email-verification-service.ts:138-207 | the transaction is the protocol's step: a usable token is consumed and a participant becomes an organizer, together or not at all; other roles stay |
| AuthService.AuthStore.RefreshSessionRole | apps/api/src/modules/auth/email-verification-service.ts:45-58 | the script is the protocol's step: the role is rewritten under the time left, and a key that is gone stays gone |
| AuthService.AuthStore.LogoutSession | apps/api/src/modules/auth/service.ts:280-305 | a logout that reports success has ended the session: it is unreadable now and after every continuation, refreshes under way included; its row is revoked unless that write failed |
| Listing.GroupByEventId | apps/api/src/modules/events/public-listing-service.ts:112-125 | each group is that event's rows in order |
| Listing.LatestImageByEventId | apps/api/src/modules/events/public-listing-service.ts:127-135 | the first row of each event |
| Listing.SelectLatestPublicImageRows | apps/api/src/modules/events/public-detail-service.ts:278-290 | the first hero and the first route map |
| Queries.SortedUnique | apps/api/src/modules/events/public-listing-service.ts:201-225 | an ordering that never ties leaves one answer to a query |
| Listing.ListingRefinesDetail | apps/api/src/modules/events/public-listing-service.ts:196-295 | for every event on a page, the card's categories, price tiers and hero are the detail page's, in the same order, however each query breaks its free choices |
| Listing.BuildCards | apps/api/src/modules/events/public-listing-service.ts:235-295 | every card built by the loops is the card of the detail queries |
| Listing.HeroIsNewest | apps/api/src/modules/events/public-detail-service.ts:255-290 | the hero shown is the newest uploaded one, and one is shown if any exists |
| Listing.RouteMapIsNewest | apps/api/src/modules/events/public-detail-service.ts:255-290 | likewise the route map on the detail page |
| Listing.TiersFollowCategories | apps/api/src/modules/events/public-detail-service.ts:227-253 | a priced event's tiers come out one per category, in category order |
| PublicView.PublishedEventIsShownWhole | apps/api/src/modules/events/public-detail-service.ts:201-291 | after any history, the page of a published event shows all its own categories in order, exactly one price for each, the event's own, and one of its own uploaded heroes; its listing card shows the same |
| PublicView.StoredPricing | apps/api/src/modules/events/public-detail-service.ts:227-253 | one tier per category in the tables is one matching row per category for the projection |
| PublicView.StoredPrices | apps/api/src/modules/events/public-detail-service.ts:227-253 | every price shown is the event's own tier of the category beside it |
| Listing.EveryRowHasOnePage | apps/api/src/modules/events/public-listing-service.ts:81-110 | every row is on exactly one page, and that page exists |
| Listing.HasNextStops | apps/api/src/modules/events/public-listing-service.ts:81-110 | hasNext holds exactly before the last page, hasPrev exactly after the first of a nonempty result, and there are no pages exactly for no rows |
| Listing.EveryPageHasARow | apps/api/src/modules/events/public-listing-service.ts:81-110 | no page that exists is empty |
| Pricing.WebAndServerAgree | apps/api/src/modules/events/service.ts:322-335 | on tiers meeting the table checks, page and server price agree at every instant except exactly the deadline |
| Pricing.EarlyBirdUntilDeadline | apps/web/src/features/event-detail/pricing.ts:53-65 | the page charges the early-bird price up to the deadline, the server up to and including it, the base price otherwise |
| Pricing.GetStartingPrice | apps/web/src/features/event-detail/pricing.ts:73-94 | the fold returns the tier carrying the starting price, none exactly for no tiers |
| Pricing.CarriesLowest | apps/web/src/features/event-detail/pricing.ts:73-94 | that price is the minimum, early-bird exactly when every tier at the minimum is |
| Pricing.StartingPriceNeverFalls | apps/web/src/features/event-detail/pricing.ts:53-94 | the starting price never decreases over time |
| EarlyBird.GetNextActiveEarlyBirdCutoff | apps/web/src/features/event-detail/early-bird.ts:56-106 | the loop answers the instant a usable offer ends, the soonest such, earlier tiers winning ties; none exactly when no offer can be used any more |
| EarlyBird.CutoffIsLeastBound | apps/web/src/features/event-detail/early-bird.ts:70-92 | a cutoff is the least of the deadline and the close and the end that can be read |
| EarlyBird.EligibleIffUsable | apps/web/src/features/event-detail/early-bird.ts:38-56 | a tier counts exactly when its offer can still be used at some instant inside the registration window; its cutoff is the first from which it no longer can |
| EarlyBird.UsableMeans | apps/web/src/features/event-detail/early-bird.ts:38-56 | where close and end can be read, a usable offer is open registration at the early-bird price |
| EarlyBird.LabelAdvertisesOffer | apps/web/src/features/event-detail/early-bird.ts:56-106 | a label is shown exactly while an offer can still be used, names a tier now sold at its early-bird price and counts down to the end of its offer, the soonest of all |
| EarlyBird.LabelReadsRemaining | apps/web/src/features/event-detail/early-bird.ts:108-150 | a label reads the time left rounded down to its unit, within its range |
| EarlyBird.LabelAgreesIffBoundsParse | apps/web/src/features/event-detail/early-bird.ts:56-106 | while a label is shown registration is open or still to open, exactly when the close and the end can be read |
| EarlyBird.DelayBounds | apps/web/src/features/event-detail/early-bird.ts:152-163 | each delay is in 1..60000 and lands at most 1 ms after the cutoff |
| EarlyBird.ChainShowsFreshLabel | apps/web/src/features/event-detail/early-bird.ts:182-220 | the label on screen is the recomputed one at every millisecond and across roll-overs, except at the displayed cutoff itself |
| EarlyBird.ChainEnds | apps/web/src/features/event-detail/early-bird.ts:192-220 | once every cutoff lies behind, nothing more is scheduled |
| EarlyBird.CountdownHook.Tick | apps/web/src/features/event-detail/early-bird.ts:192-220 | one tick renders and schedules as the chain says |
| Registration.StateMovesForward | apps/web/src/features/event-detail/registration.ts:48-77 | registration state only moves forward, whatever the bounds |
| Registration.StateFromBounds | apps/web/src/features/event-detail/registration.ts:48-77 | which bounds decide each state, a close or an end that cannot be read counting as passed |
| Registration.GetNextBoundaryMs | apps/web/src/features/event-detail/registration.ts:132-153 | the least future bound, none exactly when there is none |
| Registration.ChainShowsTrueState | apps/web/src/features/event-detail/registration.ts:171-213 | with delays clamped to 2^31 - 1, the state on screen is the true one at every millisecond that is not a boundary |
| Registration.TicksFollowBoundaries | apps/web/src/features/event-detail/registration.ts:188-205 | each tick comes right after a boundary or is a piece of a wait too long for one timer |
| Registration.ChainEnds | apps/web/src/features/event-detail/registration.ts:188-205 | the chain ends once every boundary lies behind |
| Registration.RegistrationHook.Tick | apps/web/src/features/event-detail/registration.ts:188-205 | one tick renders and schedules as the chain says |
| Registration.DiscoveryAgrees | packages/shared/src/utils/event-discovery-status.ts:62-109 | listing status and registration state agree up to sold out, and sold out is exactly open with no spot left anywhere |
| Registration.AcceptedPassesAllStates | packages/shared/src/schemas/event.ts:167-230 | an accepted schedule with a window passes through all four states on non-empty intervals |
| Registration.AcceptedWithinOneDay | packages/shared/src/schemas/event.ts:167-239 | a schedule is accepted exactly when it lies within one local day and has both registration bounds or none, in order and before the start |
| BusinessDays.AddBusinessDays | apps/api/src/modules/organizer/verification-status-service.ts:17-28 | ends on the least day with exactly `days` weekdays after the start |
| BusinessDays.WeekendIsThirdAndFourth | apps/api/src/modules/organizer/verification-status-service.ts:17-28 | counting from Thursday 1 January 1970, the weekend is days 2 and 3 of every seven |

## Left out

- Unicode NFKD in the slug normaliser: titles are taken after that step; lower-casing is then on ASCII letters.
- MarketplaceLaws.LiveEventsAreComplete: one serial step per route; the status re-evaluation after a document change reads and then writes without a transaction, and two such calls racing are not modelled.
- MarketplaceLaws.FirstFourByApproval: under the default review policy only; a policy injected through the service's dependencies is not modelled.
- EventLifecycle.EditKeepsInv: names, distances, descriptions, venue fields and the registration form are not columns of the model; their edits have the same guards.
- MarketplaceStore.Store.ReplaceEventPricing: rows are kept in request order; the source sorts them before inserting, which no query can observe.
- MarketplaceStore.Store.RegisterOrganizer: the organizer's own slug; organizer slugs live in a SlugStore of their own, with the same theorems.
- SlugStore.Store.Insert: one attempt; createDraftEvent repeats reservation and insert up to three times on a unique violation, which needs a concurrent insert between the two.
- SlugHistory.OneHop: the uncached lookup; behind the single-flight cache a lookup can be as old as SingleFlight.BoundedStaleness allows.
- SingleFlight: values are opaque, with the instant of their database snapshot; malformed cache entries are one kind of unreadable entry.
- OrganizerReview.AcceptTakesEffectIff: acceptances of one user come at strictly increasing instants.
- PaymentSafety.ApprovalSafeIff: from there on, lost replies are excluded; LinkedAccount.LostReplyTakesActiveBack shows what one does.
- Otp: hashes stand for codes; generation, HMAC, the send lock and its cooldown, and the non-atomic incrementOtpAttempts are not modelled.
- Sessions: cookies, random session identifiers (fresh identifiers instead), email sending and token creation.
- Listing: card fields copied from the event row, image URLs and the spots badge are projections of the same rows on both paths.
- EarlyBird.ChainShowsFreshLabel: timers fire on time and date strings are parsed beforehand; text formatting is a label value.
- retryRazorpayAccount: its guard only decides whether a job is queued; in the model jobs may start at any time for any organizer.
- Completed and cancelled events: no code sets these statuses; the guards on them are modelled, the statuses are unreachable.
- Routes, plugins, middleware, queues, workers' wiring, audit log, email stubs, CDN purging and sitemap contents.
- S3, SMS, email and payment APIs, which appear as their possible outcomes only.
