# Verification model of the marketplace backend

The backend is a set of services over shared tables. Most of its writes are conditional updates, unique
inserts or short transactions, made by several replicas and users at once. This project models those tables
as maps, each database access as one atomic step, and proves what every interleaving keeps. Where a service
method changes state, there is also a class whose methods are proved equal to the step functions that the
run lemmas are about.

| file | what it models |
|---|---|
| `Prelude.dfy` | options, string order, map lookup |
| `Subscriptions.dfy` | subscription snapshots: the ordered upsert, convergence, the derived plan cache |
| `SyncRaces.dfy` | the read and the write of a sync as separate steps |
| `StripeWebhook.dfy` | webhook ingestion by replicas: lease claims, crashes, retries, dispatch, acknowledgement |
| `Checkout.dfy` | one remote customer per user, one remote session per attempt, under races and crashes |
| `Negotiation.dfy` | offers, chats and requests: calls that read first and write later, interleaved |
| `OffersService.dfy` | the same calls one at a time on mutable tables |
| `Lifecycle.dfy` | the request status as a function of idle time, and the queries that stand for it |
| `StableSort.dfy` | a stable sort and selection, the shape of `Array.sort` and `ORDER BY` |
| `Listing.dfy` | the two-tier marketplace pager against one sorted list |
| `LifecycleNotifications.dfy` | hourly scans of several replicas, row by row, and their deduplicated notifications |
| `ChatRate.dfy` | the sliding-window limiter of chat sends |
| `UsLocations.dfy` | printer and parser of "Area, ST" |
| `RequestLocation.dfy` | the sanitiser of a location selection, the location filter |
| `SellerFilters.dfy` | the saved-search matcher against the listing query |
| `Moderation.dfy` | community reports, the flags they raise, reports racing each other |
| `OfferHighlights.dfy` | two offer scores and the three highlight slots |
| `TokenPurge.dfy` | refresh, verification and reset tokens, and the nightly purge |

Claims that do not hold of the code are stated with the exact condition under which they do, followed by a
case in which they fail:

| claim | holds if and only if | fails in |
|---|---|---|
| convergence | `ConvergesIffGreatestUnique` | `RetriedFetchDiverges`, `RetryKeepsTheFirstFetch` |
| the plan cache survives a crash after the upsert | `CrashBeforeCacheWrite` | `PayingUserLeftOnFree` |
| an upsert never lowers the key, read and write apart | `StaleReadLowersKeyIff`, `AlwaysGreatestIffNoneOvertaken` | `OlderWriteLands` |
| nothing is active after a close | `ClosedStaysQuietIffNoLateAcceptance` | `LateAcceptanceIsReachable` |
| a close call ends every negotiation | `CloseCallEndsNegotiations` | `CloseAfterDealLeavesNegotiation` |
| live offers have the current location | `CommitKeepsAgreementIffNotOutdated` | `OverlappingCallsDisagree` |
| the structure is frozen under a live offer | `EditThawsIffOvertaken` | `OvertakenEditThaws` |
| the visibility query is the status function | `VisibleQueryIffOffCutoff` | `CutoffsDisagree` |
| the pages show what is counted | `PagesShowWhatIsCounted` | `ClockMoveHidesARow` |
| nothing is announced twice | `AnnouncementsBalanceDeletions` | `DeletedWhileDueComesBack` |
| the kept stamps tell the recent sends | `PruningShowsIffClockReachesBack` | `BackwardClockOverflows` |
| the alert matcher is the listing query | `QueryIsMatcherOnOwnKind` | `AlertOutsideTheListing` |
| one address counts once | `AddressesCountOnceIffNoneOvertaken` | `RacingReportsShareAnAddress` |
| the purge is unobservable | `UnobservableIffSafe` | `RefreshInTheLastMoment`, `BackwardClockShowsThePurge` |
| a password reset signs the user out | `ResetLastsIffNoRefreshInFlight` | `RefreshOverlapsReset` |

After a crash flags may lag behind the counted reports (`TenReportsAndNoFlag`) until the next one against the same
subject (`NextReportMakesUp`).

The comment of `requestMatchesSellerFilters` says that it replicates the listing; it does so only when the
category is fixed, and the model follows the code.

## Model

| member | source | states |
|---|---|---|
| `Subscriptions.KeyLeIsTotalOrder` | `apps/api/src/billing/stripe-webhook.service.ts:439-465` | (event time, status rank, event id) is a total order: total, antisymmetric, transitive |
| `Subscriptions.SkipIsKeyOrder` | `apps/api/src/billing/stripe-webhook.service.ts:439-465` | the branchy staleness test is that order, except that an exact tie on an empty id is applied again |
| `Subscriptions.MergeKeepsGreater` | `apps/api/src/billing/stripe-webhook.service.ts:339-431` | one upsert never lowers the stored key and never ends below the key offered |
| `Subscriptions.FoldIsGreatest` | `apps/api/src/billing/stripe-webhook.service.ts:339-431` | any sequence of upserts, with any repeats, ends on an offered row of greatest key |
| `Subscriptions.ConvergesIffGreatestUnique` | `apps/api/src/billing/stripe-webhook.service.ts:339-465` | all orders and duplications of a set of snapshots end on one row if and only if the snapshots tied for the greatest key agree |
| `Subscriptions.RetriedFetchDiverges` | `apps/api/src/billing/stripe-webhook.service.ts:256-315` | two different snapshots of one key do not converge: whichever is folded first stays |
| `Subscriptions.EqualKeysConverge` | `apps/api/src/billing/stripe-webhook.service.ts:339-465` | equal keys carrying equal snapshots is enough for convergence |
| `Subscriptions.SameSecondDeletionWins` | `apps/api/src/billing/stripe-webhook.service.ts:52-70` | of two events in one second the deletion wins, in either order |
| `Subscriptions.SameSecondRevocationWins` | `apps/api/src/billing/stripe-webhook.service.ts:52-70` | and so does any status that does not grant Plus over one that does |
| `Subscriptions.LaterSnapshotWins` | `apps/api/src/billing/stripe-webhook.service.ts:433-465` | of two snapshots the one of the later second stays, in the same second the one of the status further from Plus (active and trialing, past due, incomplete, unpaid, expired, canceled), then the one of the greater event id, in either order of arrival |
| `Prelude.StrLeAtFirstDifference` | `apps/api/src/billing/stripe-webhook.service.ts:461` | event ids compare where they first differ, a proper prefix being smaller |
| `Subscriptions.QueryAgreesWithAllRows` | `apps/api/src/subscription/subscription.service.ts:48-67` | the query restricted to candidate statuses grants Plus exactly when some row of the user does |
| `Subscriptions.EntitlementOnlyLapses` | `packages/shared/src/subscription.ts:95-116` | with the rows fixed, entitlement can only end as time passes |
| `Subscriptions.PlansStaySound` | `packages/shared/src/subscription.ts:95-116` | a cached plan that misses no live Plus now misses none later |
| `Subscriptions.SyncKeepsPlansSound` | `apps/api/src/billing/stripe-webhook.service.ts:391-426` | a whole sync, upsert and cache write, leaves no live Plus out of the cached plans of any user |
| `Subscriptions.SyncStoresTheSnapshot` | `apps/api/src/billing/stripe-webhook.service.ts:391-426` | a sync of a subscription not stored yet, or stored from an older event, stores the snapshot column by column under the event's time and id, and no other row changes |
| `Subscriptions.SyncIgnores` | `apps/api/src/billing/stripe-webhook.service.ts:345-390` | without a known status and owner, with another owner in the metadata, or for an older event, nothing is written |
| `Subscriptions.FirstSnapshotDecidesThePlan` | `apps/api/src/billing/stripe-webhook.service.ts:339-431` | from the provider's status to the cached plan: the first snapshot of a user makes the plan PLUS if and only if it is active, trialing or past due, or canceled with a period that ends after now; nobody else's plan changes |
| `Subscriptions.RetryAfterCrashIsSkipped` | `apps/api/src/billing/stripe-webhook.service.ts:391-426` | after a crash between upsert and cache write the retry of the event changes nothing |
| `Subscriptions.CrashBeforeCacheWrite` | `apps/api/src/billing/stripe-webhook.service.ts:391-426` | after that crash the cache misses nobody if and only if the snapshot does not grant Plus or the owner's cached plan said PLUS already |
| `Subscriptions.PayingUserLeftOnFree` | `apps/api/src/billing/stripe-webhook.service.ts:391-426` | a first active subscription whose owner is entitled and stays on FREE, retry included |
| `Subscriptions.StaleReadLowersKeyIff` | `apps/api/src/billing/stripe-webhook.service.ts:372-420` | an upsert decided on an earlier value of the row lowers the stored key if and only if the stored key is above the incoming one and the read had not reached it |
| `Subscriptions.OlderEventOverwrites` | `apps/api/src/billing/stripe-webhook.service.ts:372-420` | two replicas that both read before writing let an older event replace a newer one |
| `SyncRaces.AlwaysGreatestIffNoneOvertaken` | `apps/api/src/billing/stripe-webhook.service.ts:339-431` | with read and upsert as separate steps of many replicas: the stored row is the greatest snapshot synced at every moment of a run if and only if no write lands on a higher one written since its read |
| `SyncRaces.PendingIsTracked` | `apps/api/src/billing/stripe-webhook.service.ts:372-420` | a sync in flight: what is stored is what it read or was written since |
| `SyncRaces.OlderWriteLands` | `apps/api/src/billing/stripe-webhook.service.ts:372-420` | a run in which two replicas read first and the older event stays |
| `Subscriptions.SubscriptionStore.SyncPlanCacheFromEntitlements` | `apps/api/src/subscription/subscription.service.ts:90-116` | the cached plan becomes PLUS exactly when the user is entitled; no other user's plan changes |
| `Subscriptions.SubscriptionStore.SyncStripeSubscription` | `apps/api/src/billing/stripe-webhook.service.ts:339-431` | when a sync applies, every column of the stored row is the snapshot's, and the owner's plan is PLUS exactly when entitled; the reason of every skip, a skip changes nothing, and a skipped stale event has a key no greater than the stored one |
| `StripeWebhook.ClaimsAreLeaseApart` | `apps/api/src/billing/stripe-webhook.service.ts:138-201` | for any interleaving and any clocks, claims granted for one event are at least a lease apart each, and the row counts exactly them |
| `StripeWebhook.AttemptsAreBoundedByTime` | `apps/api/src/billing/stripe-webhook.service.ts:138-201` | attempts are at most one plus (last stamp - first stamp) / lease |
| `StripeWebhook.ProcessedIsFinal` | `apps/api/src/billing/stripe-webhook.service.ts:138-213` | once an event is processed no claim is ever granted and it stays processed |
| `StripeWebhook.HoldersAreLeaseApart` | `apps/api/src/billing/stripe-webhook.service.ts:138-201` | two replicas that hold one event at once started at least a lease apart |
| `StripeWebhook.RunRefinesFold` | `apps/api/src/billing/stripe-webhook.service.ts:339-431` | the row of a subscription after any run is the fold of the syncs that ran, in order |
| `StripeWebhook.GreatestSyncWins` | `apps/api/src/billing/stripe-webhook.service.ts:90-125` | exactly-once effect: that row is the snapshot of the greatest key among the syncs that ran, and exists if and only if one ran |
| `StripeWebhook.RunsThatSawTheSameSyncsAgree` | `apps/api/src/billing/stripe-webhook.service.ts:90-125` | two runs that ran the same syncs, in any order and number, end with the same row |
| `StripeWebhook.AcknowledgedWasDispatched` | `apps/api/src/billing/stripe-webhook.service.ts:90-125` | at least once: every processed event was dispatched to completion |
| `StripeWebhook.ProcessedEventIsReflected` | `apps/api/src/billing/stripe-webhook.service.ts:90-125` | end to end: a processed event was dispatched in the run, and whatever snapshot of known status and owner that dispatch offered, the stored row is at or above its key |
| `StripeWebhook.DispatchOffersTheSnapshot` | `apps/api/src/billing/stripe-webhook.service.ts:215-254` | for a created, updated or deleted event what is offered is the event's own snapshot under (its time, the rank of its status, its id) |
| `StripeWebhook.RetryKeepsTheFirstFetch` | `apps/api/src/billing/stripe-webhook.service.ts:302-315` | a crashed event retried after its lease fetches anew; of two snapshots of one key the first synced stays, in either order |
| `StripeWebhook.LoneRetryClaimsIffLeaseOver` | `apps/api/src/billing/stripe-webhook.service.ts:138-201` | a lone retry gets the event if and only if it is new, or unprocessed with its lease over |
| `StripeWebhook.LoneRetryWaitsTwoMinutes` | `apps/api/src/billing/stripe-webhook.service.ts:172-201` | a stored event goes to a lone retry if and only if it is unprocessed and 120000 ms have passed since its last claim |
| `StripeWebhook.AcknowledgedIsSettled` | `apps/api/src/billing/stripe-webhook.service.ts:203-213` | acknowledging stamps exactly that event, and from then on, in any run, it is granted to nobody and no replica that did not hold it comes to hold it |
| `StripeWebhook.FetchedSnapshotIsStored` | `apps/api/src/billing/stripe-webhook.service.ts:256-315` | a paid-for checkout and a failed invoice store the subscription that was fetched, column by column under the event's time and id, unless the stored one is as recent; a failed fetch writes nothing and leaves the event to be sent again |
| `StripeWebhook.OtherEventsChangeNoSubscription` | `apps/api/src/billing/stripe-webhook.service.ts:215-315` | every other event without a snapshot, incomplete checkouts and invoices included, changes no subscription and is acknowledged |
| `StripeWebhook.CustomerOwnerIsFinal` | `apps/api/src/billing/stripe-webhook.service.ts:351-373` | over whole runs a provider customer stays with the user it was linked to |
| `StripeWebhook.CachedPlanNeverMissesPlus` | `apps/api/src/billing/stripe-webhook.service.ts:391-426` | in every state of every run, at every later time, live Plus from the rows is in the cached plan |
| `StripeWebhook.BillingEvents.ClaimBillingEvent` | `apps/api/src/billing/stripe-webhook.service.ts:138-201` | a stored unprocessed event is claimed if 120000 ms have passed since its last claim and in progress before; a new one is claimed, a processed one a duplicate; a claim stamps now and counts one attempt more, anything else writes nothing |
| `StripeWebhook.BillingEvents.MarkBillingEventProcessed` | `apps/api/src/billing/stripe-webhook.service.ts:203-213` | only the processed stamp of that event changes |
| `Checkout.KeysAreInjective` | `apps/api/src/billing/billing.config.ts:53-64` | idempotency keys of different users, of different attempts, and of the two kinds never meet |
| `Checkout.RunsKeepInv` | `apps/api/src/billing/billing.service.ts:273-461` | in every run remote objects sit under their own keys, attached sessions match them, open attempts are one per user, and nothing attached is ever taken back |
| `Checkout.SessionsNeverOutnumberAttempts` | `apps/api/src/billing/billing.service.ts:322-413` | remote sessions never outnumber attempt rows, crashes and races included |
| `Checkout.AttachedSessionIsFinal` | `apps/api/src/billing/billing.service.ts:358-413` | a session id once set never changes and is the session of the attempt's own key |
| `Checkout.CallersShareTheSession` | `apps/api/src/billing/billing.service.ts:322-356` | all callers answered for one attempt got the same session |
| `Checkout.OneRemoteCustomerPerUser` | `apps/api/src/billing/billing.service.ts:273-311` | a user never has two remote customers, and the stored customer is that one |
| `Checkout.OpenAttemptIsUnique` | `apps/api/src/billing/billing.service.ts:442-461` | two open attempts of one user are one attempt |
| `Checkout.RetryRecoversTheSession` | `apps/api/src/billing/billing.service.ts:322-413` | after a crash between remote create and local write, the next lone caller gets that very session and the provider creates nothing |
| `Checkout.SavedSessionIsOpenUntil` | `apps/api/src/billing/billing.service.ts:399-413` | an attached session is offered until the provider's end in seconds times 1000, or for 23 hours when there is none, and not a millisecond longer |
| `Checkout.SecondCallReuses` | `apps/api/src/billing/billing.service.ts:322-350` | a second lone call before that moment gets the row and the session of the first and changes no table and nothing at the provider |
| `Checkout.SecondCallStartsAnew` | `apps/api/src/billing/billing.service.ts:322-350` | after it the attempt is EXPIRED and the call opens a new one for 23 hours |
| `Checkout.RefusalFreesTheUser` | `apps/api/src/billing/billing.service.ts:379-397` | a definitive refusal cancels the attempt, so that nothing of the user stays open |
| `Checkout.MarkedSessionIsNotOffered` | `apps/api/src/billing/stripe-webhook.service.ts:317-335` | a completed or expired session is offered to nobody again, and no other attempt changes |
| `Checkout.BillingService.GetOrCreateStripeCustomer` | `apps/api/src/billing/billing.service.ts:273-311` | the answer is the stored customer of the user, created at most once |
| `Checkout.BillingService.ExpireStaleOpenCheckouts` | `apps/api/src/billing/billing.service.ts:416-427` | exactly the open attempts of the user whose time is not after now become EXPIRED, and nothing else of them changes |
| `Checkout.BillingService.FindOrClaimRow` | `apps/api/src/billing/billing.service.ts:429-461` | the row returned is the user's open attempt; a new one, open for 23 hours, only when there was none |
| `Checkout.BillingService.AttachStripeCheckoutToAttempt` | `apps/api/src/billing/billing.service.ts:358-413` | the session of the attempt's key is written to it with its end in milliseconds, or 23 hours from now; or the attempt is canceled when the provider refuses and nothing was attached |
| `Checkout.BillingService.GetOrCreateOpenCheckoutSession` | `apps/api/src/billing/billing.service.ts:322-350` | an open attempt with a session is answered as it is and nothing changes; otherwise the session under the key of the user's attempt, open until its own end; every other row changes only by expiry |
| `Negotiation.RunsKeepInv` | `apps/api/src/offers/offers.service.ts:424-773` | the coupling of offers, chats, deals and request status holds in every interleaving of reads and writes |
| `Negotiation.NegotiationsAreCoupled` | `apps/api/src/offers/offers.service.ts:81-111` | chat if and only if ACEPTADA; active negotiation means NEGOCIANDO or CERRADA; a deal means CERRADA, is not also ended, and is the only one of its request |
| `Negotiation.OffersMoveAlongEdges` | `apps/api/src/offers/offers.service.ts:424-526` | each step moves an offer along at most one edge pending to rejected or negotiating, negotiating to completed or ended |
| `Negotiation.NothingGoesBack` | `apps/api/src/requests/requests.service.ts:1096-1128` | over whole runs phases only go forward and CERRADA is never left |
| `Negotiation.EndingLeavesTheStatusOfTheRest` | `apps/api/src/offers/offers.service.ts:81-111` | ending a negotiation of a live, unpaused request leaves it NEGOCIANDO while another one of it goes on, and ACTIVA after the last; paused, closed and removed requests keep their status; the offer is stamped with party and time, and nothing else changes |
| `Negotiation.EditableAgainAfterEnding` | `apps/api/src/requests/requests.service.ts:805-841` | the buyer may edit again after an ending if and only if no other negotiation of the request goes on |
| `Negotiation.CompletingWrites` | `apps/api/src/offers/offers.service.ts:605-640` | a deal stamps the one offer and closes and unpauses its request |
| `Negotiation.ClosingWrites` | `apps/api/src/requests/requests.service.ts:1105-1128` | a close ends each negotiation of the request in the buyer's name and leaves pending offers pending |
| `Negotiation.ClosedRequestRefuses` | `apps/api/src/offers/offers.service.ts:428-434` | a closed request takes no offer, no acceptance of a pending one, no deal, edit, pause or renewal |
| `Negotiation.RemovedRequestRefuses` | `apps/api/src/requests/requests.service.ts:1180-1204` | a request is removed by its owner if and only if it is closed or has no negotiation; after that only rejections and messages pass |
| `Negotiation.RenewUndoesPause` | `apps/api/src/requests/requests.service.ts:1146-1178` | a pause is one flag, is not repeated, and renewing takes back exactly that |
| `Negotiation.SendingWrites` | `apps/api/src/chats/chats.service.ts:445-511` | the buyer's message passes in a chat whose negotiation has not ended, and takes an ACTIVA request to NEGOCIANDO |
| `Negotiation.CloseLeavesQuiet` | `apps/api/src/requests/requests.service.ts:1105-1128` | the write of close leaves the request closed with no active negotiation |
| `Negotiation.ClosedStaysQuietIffNoLateAcceptance` | `apps/api/src/offers/offers.service.ts:432-493` | no offer of a closed request is ever active again, whatever follows, if and only if no acceptance that read before the close is still in flight |
| `Negotiation.LateAcceptanceIsReachable` | `apps/api/src/offers/offers.service.ts:432-493` | such an acceptance does happen |
| `Negotiation.CloseCallEndsNegotiations` | `apps/api/src/requests/requests.service.ts:1096-1112` | a close call ends every negotiation if and only if the request was open or had none: on a closed request it returns early |
| `Negotiation.CloseAfterDealLeavesNegotiation` | `apps/api/src/requests/requests.service.ts:1096-1112` | it happens: two offers accepted, one deal completed, and the close leaves the other negotiation active |
| `Negotiation.LocationSinceRead` | `apps/api/src/offers/offers.service.ts:113-189` | the request of an offer in flight is where the edits committed since its read have left it |
| `Negotiation.LiveOffersCameSince` | `apps/api/src/requests/requests.service.ts:805-841` | under a structural edit in flight every live offer of the request was committed since the edit read it |
| `Negotiation.CommitKeepsAgreementIffNotOutdated` | `apps/api/src/offers/offers.service.ts:176-189` | after any run, a write breaks 'live offers have the request's current location' if and only if a move and an offer overlapped in the schedule, both land, and they name different locations |
| `Negotiation.RunsApartAgree` | `apps/api/src/offers/offers.service.ts:176-189` | every live offer's location stays current in every run in which no move of a request commits between the read and the write of an offer on it, nor an offer between those of a move |
| `Negotiation.SerialRunsAreApart` | `apps/api/src/requests/requests.service.ts:783-1029` | runs whose calls do not overlap keep moves, structural edits and offers apart |
| `Negotiation.OverlappingCallsDisagree` | `apps/api/src/requests/requests.service.ts:988-1029` | calls that do overlap can break it: an offer written after an edit it had not read |
| `Negotiation.StructureIsFrozenUnderLiveOffer` | `apps/api/src/requests/requests.service.ts:60-83` | while an offer stays pending or negotiating no structural field of its request changes, in every run in which no offer commits between the read and the write of a structural edit of the request |
| `Negotiation.EditThawsIffOvertaken` | `apps/api/src/requests/requests.service.ts:818-841` | after any run, the write of a structural edit changes the structure under a live offer if and only if an offer that overtook it still stands and the edit writes something new |
| `Negotiation.OvertakenEditThaws` | `apps/api/src/requests/requests.service.ts:818-841` | it happens: an offer written between the read and the write of a move |
| `OffersService.Marketplace.SyncRequestNegotiationStatus` | `apps/api/src/offers/offers.service.ts:81-111` | a live request is NEGOCIANDO when a negotiation is active and ACTIVA when none is, unless it is paused; closed and removed ones stay as they are; nothing else changes |
| `OffersService.Marketplace.Create` | `apps/api/src/offers/offers.service.ts:113-221` | every refusal with its reason, by the days since the buyer's last activity among others, and otherwise a pending offer with the request's location |
| `OffersService.Marketplace.AcceptOffer` | `apps/api/src/offers/offers.service.ts:424-493` | who may accept what and when; the offer is ACEPTADA with a chat, a first acceptance puts the request in negotiation, a refusal changes nothing |
| `OffersService.Marketplace.RejectOffer` | `apps/api/src/offers/offers.service.ts:512-526` | only a pending offer of the buyer's own request is rejected |
| `OffersService.Marketplace.CompleteDeal` | `apps/api/src/offers/offers.service.ts:552-660` | who may complete which offer; it is stamped once and its request closed and unpaused, at most one per request; a refusal changes nothing |
| `OffersService.Marketplace.End` | `apps/api/src/offers/offers.service.ts:680-773` | who may end what; the offer is stamped with the party and the time, and a live, unpaused request is NEGOCIANDO while another negotiation of it goes on and ACTIVA otherwise; a refusal changes nothing |
| `OffersService.Marketplace.CloseRequest` | `apps/api/src/requests/requests.service.ts:1096-1128` | the owner's live request is closed and unpaused and every negotiation of it ended in the buyer's name; other offers stay as they are, and a closed request is left alone |
| `OffersService.Marketplace.UpdateRequest` | `apps/api/src/requests/requests.service.ts:783-1029` | which edits pass, that exactly the written fields change, and that an edit under a live offer leaves every structural field |
| `Lifecycle.VisibleQueryIffOffCutoff` | `apps/api/src/requests/request-status.ts:44-64` | the NOT clause is implied by the OR clause; the visibility query agrees with the status function if and only if the request is closed, paused, or not on a 7, 8 or 10 day cutoff |
| `Lifecycle.CutoffsDisagree` | `apps/api/src/requests/request-status.ts:44-64` | at exactly 7 and 10 days the query shows what the status hides, at exactly 8 days the other way round |
| `Lifecycle.OfferableIffFresh` | `packages/shared/src/request-status.ts:67-79` | offers are taken while the request is open, unpaused and less than 7 days idle, and it is visible then |
| `Lifecycle.StatusByDaysIdle` | `packages/shared/src/request-status.ts:51-72` | by whole days without a sign of the buyer: live before the seventh, pending on it, inactive on the eighth and ninth, archived from the tenth; visible when live or inactive |
| `Lifecycle.ClosedAndPausedAreHidden` | `packages/shared/src/request-status.ts:51-79` | closed and paused requests are neither visible, listed nor offerable, however fresh |
| `Lifecycle.ScanSelectsExactly` | `apps/api/src/requests/request-status.ts:70-94` | the scan query selects exactly the active requests pending confirmation or inactive |
| `Listing.TiersAreOneQuery` | `apps/api/src/requests/requests.service.ts:175-221` | the two tier queries in a row are one query ordered by activity |
| `Listing.PaginateSellerMarketplaceIds` | `apps/api/src/requests/requests.service.ts:175-221` | for every skip and limit the ids are the slice of that one query |
| `Listing.PagesShowWhatIsCounted` | `apps/api/src/requests/requests.service.ts:537-542` | the pages show no row that is not counted, and every counted one except those that turned 10 days idle since the query was built, or turned 7 and are not past 8 |
| `Listing.ClockMoveHidesARow` | `apps/api/src/requests/requests.service.ts:537-542` | a row counted at exactly 7 days is on no page a millisecond later |
| `Listing.PageIsSliceOfMatches` | `apps/api/src/requests/requests.service.ts:459-466` | with one clock value a page is the slice of all matching rows, and the count is their number |
| `Listing.PagesArePrefix` | `packages/shared/src/pagination.ts:11-26` | the first n pages are the first n * limit items |
| `Listing.PagesListEverything` | `packages/shared/src/pagination.ts:18-26` | pages 1 to totalPages list every item once, in order |
| `Listing.LastPageIsNotEmpty` | `packages/shared/src/pagination.ts:18-26` | and totalPages is no more than that: the last page is not empty unless there is nothing |
| `Listing.AllPagesListEveryMatch` | `apps/api/src/requests/requests.service.ts:175-221` | pages 1 to totalPages of the pager give the ids of all matching rows, most recent activity first, each exactly once |
| `Listing.ParsePagination` | `packages/shared/src/pagination.ts:11-16` | page at least 1, limit 20 unless given and clamped to 1..50, skip counts the earlier pages |
| `Listing.PagesAgreeWithSort` | `packages/shared/src/request-status.ts:67-117` | off the cutoffs the database order is sortRequestsForSeller over the visible requests, ties included |
| `LifecycleNotifications.DedupeKeyIsInjective` | `apps/api/src/notifications/notification-dedupe.ts:4-19` | one key per kind, request and activity time, whatever the ids look like |
| `LifecycleNotifications.DueMeansSomeRowIsDue` | `apps/api/src/notifications/notifications.service.ts:584-616` | a notification is due if and only if the status of some row calls for it and the user has not muted it |
| `LifecycleNotifications.Notifications.Create` | `apps/api/src/notifications/notifications.service.ts:111-161` | a row is added if and only if it is not muted, not there and does not fail; the unique index holds and nothing else changes |
| `LifecycleNotifications.Notifications.ScanRequestLifecycle` | `apps/api/src/notifications/notifications.service.ts:584-616` | one scan on its own adds exactly the due notifications whose insert works, after the rows already there |
| `LifecycleNotifications.AnnouncementsBalanceDeletions` | `apps/api/src/notifications/notifications.service.ts:111-161` | with scans of several replicas going row by row between all other steps: for each kind, request and activity time the created notifications number its deletions plus one while its row is there |
| `LifecycleNotifications.AnnouncedOncePlusDeletions` | `apps/api/src/notifications/notifications.service.ts:111-161` | so they are at most one plus the deletions |
| `LifecycleNotifications.AtMostOnce` | `apps/api/src/notifications/notification-dedupe.ts:4-19` | while the user keeps the notification no kind, request and activity time is announced twice, however the scans overlap |
| `LifecycleNotifications.DeletedWhileDueComesBack` | `apps/api/src/notifications/notifications.service.ts:568-575` | a notification deleted while still due is announced a second time |
| `LifecycleNotifications.AnnouncedExactlyOnce` | `apps/api/src/notifications/notifications.service.ts:584-616` | a request that nobody touches or mutes, with scans that run to their end at least daily, is announced exactly once as expiring and exactly once as inactive, in every interleaving |
| `LifecycleNotifications.OneScanInTime` | `apps/api/src/notifications/notifications.service.ts:584-616` | the simplest such run: a single scan while the notification is due |
| `LifecycleNotifications.DueIffInWindow` | `packages/shared/src/request-status.ts:51-65` | expiring is due exactly from 7 to 8 days idle, inactive exactly from 8 to 10 |
| `LifecycleNotifications.MutedIsSilent` | `apps/api/src/notifications/notifications.service.ts:111-124` | what a user keeps muted is never announced to them, in any interleaving of scans |
| `ChatRate.PruningShowsIffClockReachesBack` | `apps/api/src/chats/chat.gateway.ts:136-145` | the pruned list counts the recent sends of the full history if and only if the clock does not reach back to a pruned one |
| `ChatRate.GatedWindowNeverExceedsLimit` | `apps/api/src/chats/chat.gateway.ts:136-145` | deciding as the gateway does, no half-open window of length ttl holds more than limit accepted sends, unless the clock reaches back to a pruned send |
| `ChatRate.ForwardClockNeverReachesBack` | `apps/api/src/chats/chat.gateway.ts:136-145` | a clock that does not go back never does |
| `ChatRate.BackwardClockOverflows` | `apps/api/src/chats/chat.gateway.ts:136-145` | one that does lets a third send into a window under a limit of two, where deciding on the full history would not |
| `ChatRate.RefusedIffLimitReached` | `apps/api/src/chats/chat.gateway.ts:136-145` | with a clock that does not go back a send is refused if and only if exactly limit were accepted in the preceding ttl |
| `ChatRate.SendCountsForAMinute` | `apps/api/src/config/throttle.config.ts:15` | a send counts against later ones for 60000 ms and no longer |
| `ChatRate.RecentOfRecent` | `apps/api/src/chats/chat.gateway.ts:139` | pruning earlier loses nothing that a later pruning would keep |
| `ChatRate.RecentIsSuffix` | `apps/api/src/chats/chat.gateway.ts:139` | the pruned list is a suffix of the accepted sends |
| `ChatRate.FaithfulStep` | `apps/api/src/chats/chat.gateway.ts:136-145` | deciding on the pruned list keeps agreeing with the full history at every later time |
| `ChatRate.ChatGateway.AssertMessageRate` | `apps/api/src/chats/chat.gateway.ts:136-145` | with a clock that does not go back: the decision is the one the full history gives, no window of any user's accepted sends exceeds the limit, at most limit stamps are kept, other users are untouched |
| `UsLocations.SplitIsUnique` | `packages/shared/src/us-locations.ts:107` | the pattern splits a text in at most one place, so the lazy group makes no difference |
| `UsLocations.ParseOfFormat` | `packages/shared/src/us-locations.ts:97-111` | parsing what was printed gives back state and area, for every trimmed single-line area, commas included |
| `UsLocations.ParsedIsPrintable` | `packages/shared/src/us-locations.ts:102-111` | what parses has a known state and a trimmed, non-empty, single-line area |
| `UsLocations.FormatOfParseIsStable` | `packages/shared/src/us-locations.ts:97-111` | re-printing a parsed value is a fixed point |
| `UsLocations.TrimDropsSpace` | `packages/shared/src/us-locations.ts:105-111` | trimming leaves no outer space and keeps text that starts with none |
| `RequestLocation.LaunchCatalog` | `packages/shared/src/us-locations.ts:50-68` | the launch tables satisfy what the sanitiser needs of them |
| `RequestLocation.SanitizeUsLocationSelection` | `packages/shared/src/request-location.ts:41-90` | the result is the specified selection, consistent, and complete unless it may be empty |
| `RequestLocation.SanitizedIsConsistent` | `packages/shared/src/request-location.ts:41-90` | state, location and zone of the result fit together and are open for launch |
| `RequestLocation.ConsistentIsKept` | `packages/shared/src/request-location.ts:41-90` | a consistent selection passes through unchanged |
| `RequestLocation.SanitizeIsIdempotent` | `packages/shared/src/request-location.ts:41-90` | sanitising twice is sanitising once |
| `RequestLocation.LocationBringsItsState` | `packages/shared/src/request-location.ts:50-53` | a location open for launch stays and brings its own state when none is given; a zone stays with it if and only if it is listed there |
| `RequestLocation.MisfitLocationGoes` | `packages/shared/src/request-location.ts:55-87` | a location that is not open or lies in another state goes with its zone, to nothing or to the first market of the state; a state that is not open counts as none or as Florida |
| `SellerFilters.ParseIntOfDigits` | `packages/shared/src/seller-filters.ts:203-216` | on digits parseInt is the number they write |
| `SellerFilters.SellerFiltersToSearchParams` | `packages/shared/src/seller-filters.ts:97-124` | the parameters sent: all that is set, but no category when locked and no fields of the other category |
| `SellerFilters.CountActiveSellerFilters` | `packages/shared/src/seller-filters.ts:50-75` | the counter counts exactly the parameters that are sent |
| `SellerFilters.PlacesAgree` | `packages/shared/src/request-location.ts:107-134` | the in-memory location filter and the query agree on stored rows, in both countries |
| `SellerFilters.AutosAgree` | `packages/shared/src/seller-filters.ts:191-217` | the car filters and their query clauses agree, when they are sent |
| `SellerFilters.EstatesAgree` | `packages/shared/src/seller-filters.ts:219-232` | the estate filters and their query clauses agree, when they are sent |
| `SellerFilters.WiderQueriesFindNoLess` | `apps/api/src/requests/requests.service.ts:441-533` | within a category, a query that asks no more (fields unset or the same, a later year, more mileage, a greater least size, a smaller greatest size) finds no less |
| `SellerFilters.RequestIsFoundByItsOwnWords` | `apps/api/src/requests/requests.service.ts:441-533` | the query that repeats what a request says finds it, and with one value moved past what it says does not |
| `SellerFilters.MatcherAgreesWithQuery` | `packages/shared/src/seller-filters.ts:162-235` | with the category fixed the matcher accepts a request if and only if some filter is set and the listing query does, in both countries |
| `SellerFilters.QueryIsMatcherOnOwnKind` | `apps/api/src/requests/requests.service.ts:441-533` | without a category the query accepts exactly the matches whose kind the filters do not speak against |
| `SellerFilters.AlertOutsideTheListing` | `packages/shared/src/seller-filters.ts:157-161` | an estate request alerts a seller who filters by car brand, and is not in that seller's listing |
| `Moderation.NothingIsFlaggedEarly` | `apps/api/src/reports/reports.service.ts:155-233` | at no moment is anything flagged with fewer distinct counted reporters than its threshold |
| `Moderation.ContentIsFlaggedIffReported` | `apps/api/src/reports/reports.service.ts:164-231` | with no evaluation of it under way, and none lost to a crash that a later one has not made up for, content is up for review if and only if ten distinct reporters count against it, hidden if and only if fifteen do |
| `Moderation.UserIsSuspendedIffReported` | `apps/api/src/reports/reports.service.ts:233-258` | and a user neither blocked nor an administrator is suspended if and only if twenty-five do |
| `Moderation.RunsKeepInv` | `apps/api/src/reports/reports.service.ts:19-135` | in every interleaving flags are justified by the count, and a count that calls for more has an evaluation still to come, or one lost to a crash |
| `Moderation.NextReportMakesUp` | `apps/api/src/reports/reports.service.ts:155-233` | whatever a crash lost, the next counted report against a subject leaves its flags as the whole count demands |
| `Moderation.CheckDecides` | `apps/api/src/reports/reports.service.ts:19-97` | a report is refused if and only if it points at nothing or repeats one of the same user; it counts if and only if the reporter is verified, neither blocked nor suspended, and no counted report of the content came from the same known address |
| `Moderation.ReportedUserIsTheOwner` | `apps/api/src/reports/reports.service.ts:44-68` | the reported user is the one named, else the owner of the offer, else of the request, if there is such a user |
| `Moderation.TenReportsAndNoFlag` | `apps/api/src/reports/reports.service.ts:99-127` | a crash can lose a flag: ten counted reports whose calls crash after the insert leave an offer unflagged |
| `Moderation.CheckFailsIffOvertaken` | `apps/api/src/reports/reports.service.ts:27-79` | in any run the check of a report that waits for its insert would fail by now if and only if a report it clashes with, or repeats, was stored since the check |
| `Moderation.AddressesCountOnceIffNoneOvertaken` | `apps/api/src/reports/reports.service.ts:70-97` | over a whole run one address counts once on each content if and only if no insert is overtaken by a report it clashes with |
| `Moderation.ReportsAreUniqueIffNoneOvertaken` | `apps/api/src/reports/reports.service.ts:27-33` | over a whole run nobody reports the same thing twice if and only if no insert is overtaken by a report it repeats |
| `Moderation.OfferReportsComeFromDistinctAddresses` | `apps/api/src/reports/reports.service.ts:70-97` | in every run in which no insert is overtaken by a clashing report, no two counted reports of an offer share a known address |
| `Moderation.OfferReportsComeFromDistinctUsers` | `apps/api/src/reports/reports.service.ts:27-33` | in every run in which no insert is overtaken by its repeat, nobody reports an offer twice |
| `Moderation.RacingReportsShareAnAddress` | `apps/api/src/reports/reports.service.ts:70-97` | two checks before either insert count both reports from one address |
| `Moderation.UninterruptedEvaluation` | `apps/api/src/reports/reports.service.ts:99-127` | the steps of one call's evaluations, taken in a row, are the evaluation of the service |
| `Moderation.ReportKeepsAllSettled` | `apps/api/src/reports/reports.service.ts:99-127` | a report on its own leaves everything flagged as the new counts demand |
| `Moderation.ReportsService.Create` | `apps/api/src/reports/reports.service.ts:19-135` | why a report is refused, the stored row with its weight and reported user, and the flags after it |
| `Moderation.ReportsService.Evaluate` | `apps/api/src/reports/reports.service.ts:164-258` | hidden and under review from 15, under review from 10, suspended from 25 distinct counted reporters unless administrator or blocked, and an action if and only if the flags changed |
| `OfferHighlights.ScoresFallWithPrice` | `packages/shared/src/offer-highlights.ts:90-164` | all else fixed, a higher price never raises either score |
| `OfferHighlights.BetterOffersScoreNoLess` | `packages/shared/src/offer-highlights.ts:90-164` | cheaper, with more images, a longer message, better stars and a fuller profile never lowers either score |
| `OfferHighlights.PriceSteps` | `packages/shared/src/offer-highlights.ts:90-98` | what the price is worth in both scores: under, at, and within 5, 10 and 20 per cent over a positive budget |
| `OfferHighlights.ContentSteps` | `packages/shared/src/offer-highlights.ts:107-120` | what images and message are worth, 1.2 and 1.3 times as much in the closest match |
| `OfferHighlights.SellerSteps` | `packages/shared/src/offer-highlights.ts:100-129` | what the seller is worth in both: four points a star up to five, and avatar, business name and company |
| `OfferHighlights.PickOfferHighlights` | `packages/shared/src/offer-highlights.ts:197-260` | each highlight is the earliest best offer of its slot among those not picked before, and no offer is left out unless three are picked |
| `OfferHighlights.FirstIsMostRecommended` | `packages/shared/src/offer-highlights.ts:217-223` | the first is the earliest offer of highest recommended score |
| `OfferHighlights.SecondIsCheapestOfTheRest` | `packages/shared/src/offer-highlights.ts:224-231` | the second is the earliest of the cheapest others |
| `OfferHighlights.ThirdIsClosestOfTheRest` | `packages/shared/src/offer-highlights.ts:232-240` | the third is the earliest of the closest matches among what is left |
| `OfferHighlights.HighlightsAreThreeOrAll` | `packages/shared/src/offer-highlights.ts:196-260` | for distinct ids the result has min(3, n) offers and none twice |
| `StableSort.SelectedHead` | `packages/shared/src/offer-highlights.ts:217-240` | the head of the sorted pool is the earliest item of the list that no item of the pool comes before |
| `StableSort.SortOrders` | `packages/shared/src/request-status.ts:107-117` | the sort orders |
| `StableSort.SortPermutes` | `packages/shared/src/request-status.ts:107-117` | and permutes |
| `TokenPurge.StepKeepsSim` | `apps/api/src/auth/auth.service.ts:263-444` | every step answers the same with and without the purged rows, and keeps the tables related |
| `TokenPurge.PurgedRunLooksTheSame` | `apps/api/src/auth/auth-token-cleanup.scheduler.ts:12-26` | simulation over whole runs: a run with purges shows callers what the run without them shows |
| `TokenPurge.PurgeIsUnobservable` | `apps/api/src/auth/auth-token-cleanup.scheduler.ts:12-26` | after any past, with a clock that does not go back, purges change nothing a caller sees unless one takes a row from under a call in flight |
| `TokenPurge.UnobservableIffSafe` | `apps/api/src/auth/auth-token-cleanup.scheduler.ts:12-26` | after any past, a purge is indistinguishable by all later events if and only if no call in flight still has to write a row that it deletes |
| `TokenPurge.RefreshInTheLastMoment` | `apps/api/src/auth/auth.service.ts:276-288` | such a call occurs: a refresh read in the last moment of its token, a purge just after |
| `TokenPurge.FinishFindsTheRowGone` | `apps/api/src/auth/auth.service.ts:285-288` | in that case the call ends in an error that it would not have met |
| `TokenPurge.BackwardClockShowsThePurge` | `apps/api/src/auth/auth.service.ts:276-278` | with a clock that goes back a purge is visible |
| `TokenPurge.RevokedIsFinal` | `apps/api/src/auth/auth.service.ts:276-278` | a revoked refresh token is never taken again, whatever happens later |
| `TokenPurge.RefreshRotates` | `apps/api/src/auth/auth.service.ts:263-297` | the old token is refused for good, the new one taken until its configured end and not after, other sessions stay |
| `TokenPurge.LogoutRevokes` | `apps/api/src/auth/auth.service.ts:299-315` | the token of a logout is refused for good, other sessions stay, the answer is the same either way |
| `TokenPurge.ResetEndsTheSessions` | `apps/api/src/auth/auth.service.ts:421-433` | after a reset the new password counts, the link is refused, and no session the user had is ever taken again; other users keep theirs |
| `TokenPurge.ResetLastsIffNoRefreshInFlight` | `apps/api/src/auth/auth.service.ts:409-444` | after any past, a reset keeps the user signed out in every future without a login if and only if no refresh of that user is in flight: the write of one issues a session after the reset |
| `TokenPurge.RefreshOverlapsReset` | `apps/api/src/auth/auth.service.ts:263-297` | a reachable refresh in flight during a reset |
| `TokenPurge.VerifyingUsesUpTheLinks` | `apps/api/src/auth/auth.service.ts:317-355` | a verification verifies its user and uses up all links of that user and no other |
| `TokenPurge.OnlyTheNewestLinkVerifies` | `apps/api/src/auth/auth.service.ts:139-150` | a new verification link replaces the earlier ones and works for 24 hours |
| `TokenPurge.OnlyTheNewestLinkResets` | `apps/api/src/auth/auth.service.ts:375-407` | a new reset link replaces the earlier ones and works for an hour |
| `TokenPurge.RegistrationOpensTheAccount` | `apps/api/src/auth/auth.service.ts:152-210` | a registration opens an unverified account with its password, a link of 24 hours and a session as long as configured; the address is taken once |
| `TokenPurge.LoginOpensASession` | `apps/api/src/auth/auth.service.ts:222-261` | a login issues a session if and only if password and account are right, and changes nothing else |
| `TokenPurge.AuthService.Refresh` | `apps/api/src/auth/auth.service.ts:263-297` | a live token of an active user is revoked and replaced by one as long as configured; any other is refused without a write |
| `TokenPurge.AuthService.Logout` | `apps/api/src/auth/auth.service.ts:299-315` | read and write in a row: the token is revoked if there is one, no other changes; the answer is always the same |
| `TokenPurge.AuthService.VerifyEmail` | `apps/api/src/auth/auth.service.ts:317-355` | the user is verified and all their verification tokens go; a second link only deletes itself; a missing or old one changes nothing |
| `TokenPurge.AuthService.ForgotPassword` | `apps/api/src/auth/auth.service.ts:375-407` | earlier reset tokens of the user are replaced by one new token of an hour; for an unknown user nothing happens |
| `TokenPurge.AuthService.ResetPassword` | `apps/api/src/auth/auth.service.ts:409-444` | with a live link: the owner's password is the new one, the link is used, every session of the owner revoked and no other; with any other link nothing changes |
| `TokenPurge.AuthService.Purge` | `apps/api/src/auth/auth-token-cleanup.scheduler.ts:12-26` | exactly the expired, revoked and used rows go, verification tokens by age alone, and no row that stays changes |

## Left out

- HTTP controllers, guards, sockets, e-mail, storage, the provider's SDK, Redis, password hashing, JWTs: foreign calls. Tokens are fresh numbers, the provider is a map from idempotency key to object, and clocks are parameters.
- Web and mobile user interfaces, seeds, copy and number formatting: no invariant.
- Transactions are single steps (serialisable). Reads and writes that the code does not put in one transaction are separate steps in `StripeWebhook`, `Checkout`, `Negotiation`, `Moderation` and `TokenPurge`.
- The read and the upsert of a subscription sync are one step in `StripeWebhook`; `SyncRaces` takes them apart and says which schedules matter. A crash between the upsert and the plan cache is not a step of runs either; `CrashBeforeCacheWrite` says when that matters.
- Checkout session status changes by webhooks appear only in `Checkout`, as the step `MarkSession`; the webhook model dispatches subscription syncs only.
- The provider never forgets an idempotency key in `Checkout`; the real one may after a day.
- Administrator steps (reactivating or deleting requests, restoring content, un-suspending users) are not part of any run; blocking a user is.
- NEGOCIANDO is not claimed to mean an active negotiation: it is not restored when a negotiation ends on a paused request.
- `Negotiation` keeps a paused flag instead of the time stamp, no message texts, no listing removal or dismissal of offers, and none of the notifications; whether a request is offerable is a parameter of the read there, and computed in `OffersService`.
- The idempotent insert of a chat message is not modelled, only its freeze after a negotiation ended and its status bump.
- OffersService.Marketplace.Create: what the checks of the seller's account and of the text, images, price and rate answer is a parameter; how they decide is not modelled.
- Ties of `ORDER BY` are broken by storage order.
- `Listing` abstracts every clause that does not concern activity into one predicate; `SellerFilters` states those clauses.
- Strings are sequences of characters rather than UTF-16 units; event ids are compared character by character.
- LaunchCatalog: the areas of each market are a parameter, since the sanitiser only looks them up.
- Accepted: a numeric query parameter must be plain digits; the endpoint also takes other spellings of a whole number, such as exponents, on which `parseInt` differs.
- Prices, ratings and scores are reals; floating-point rounding is not modelled.
- The summaries attached to highlights and the labels of price comparisons are display data.
- A user's notification preferences are a set of muted kinds; runs of `LifecycleNotifications` start with no notification and no scan, and a request never changes its owner.
- Report reasons, user agents and the record of triggered actions on a report are not stored in `Moderation`; flagged content is never deleted there.
- The sending of verification and reset mails is a single step in `TokenPurge`; refreshing, logging out, verifying and resetting are two. The launch-market gate and the blocked and suspended checks are one flag of the account.
- Spam checks, rating averages, saved-search storage, car presets and user-mode helpers would only add easy members.
