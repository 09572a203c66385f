# Book snippets backend: billing, entitlements and decision kernels in Dafny

This project is a Dafny model of the billing and entitlement subsystem of the
book-snippets web backend, together with the small decision kernels that the
rest of the application is built on. Every part is pure logic over
datatypes, sequences, sets and maps. Each part has contracts, and lemmas
that tie each operation to an inverse, an invariant or an independent
reference definition.

- **Entitlements** (`entitlement_models.dfy`, `catalog.dfy`, `cache.dfy`,
  `entitlement_service.dfy`) cover several pieces:
  - the feature-bundle algebra (merge, added storage, flag encoding);
  - the plan and add-on catalog;
  - the tag-indexed expiring cache;
  - entitlement resolution: subscription, then plan, then the bundle for
    the role, then add-on storage, then a signed and cached result, with
    tag invalidation.
- **Billing** (`billing_models.dfy`, `billing_service.dfy`, `payload.dfy`)
  covers the checkout and purchase-intent flow, the webhook idempotency
  gate and its handlers, subscription status transitions, three-way seat
  reconciliation, grace-period expiry and the entitlement-invalidation
  bridge. The repository is a record of maps; the notifier, logger and
  invalidator are append-only traces.
- **Organizations** (`organization_models.dfy`, `organizations.dfy`) cover
  the role hierarchy, the invitation lifecycle, the remove and change-role
  rules and the invalidation fan-out.
- **Feature gates** (`feature_gates.dfy`) cover quota warn/block
  evaluation, flag assertion and the error payload.
- **Groups** (`group_service.dfy`, `group_filters.dfy`, `groups.dfy`) cover
  the permission predicates, the visibility filter and the route-level
  decisions for listing, creating, removing, joining and accepting
  invitations.
- **Main-module kernels** (`main_kernels.dfy`) cover tag slugs and their
  deduplication, snippet visibility, error truncation, the token store,
  mention extraction and comment-notification fan-out.
- **Engagement** (`engagement.dfy`) covers the longest and current reading
  streaks, streak badges and snippet excerpts.
- **Direct messages** (`direct_messages.dfy`) cover participant keys,
  threads, message validation, unread counts and keyset paging.
- **Notifications** (`notification_models.dfy`, `notifications.dfy`) cover
  creation, keyset paging, mark-read and preferences.
- **Email** (`email_digest.dfy`, `env_settings.dfy`, `email_providers.dfy`,
  `mail_config.dfy`) covers:
  - the digest window, base URL, item links and per-run accounting;
  - the two environment-driven email configurations and the choice of
    provider.

Shared modules are `Common` (`Option`, `Result` and the Python exception
kinds), `Text` (the `str` operations the code relies on, with `int`/`str`
round trips) and `Seqs` (deduplication, ordering, reversal).

Modelling conventions:
- A Python exception is an `Err` of the matching kind.
- An operation that persists something before raising returns its outcome
  together with the new state, so the partial effect stays visible.
- Instants are integer seconds and every clock is an explicit argument.
- Python truthiness is written out: `None`, `""` and `0` are falsy.

## Model

| member | source | states |
|---|---|---|
| EntitlementModels.ParsePlanKey | backend/app/entitlements/models.py:12-17 | a parsed plan key has exactly the text it was parsed from |
| EntitlementModels.PlanKeyRoundTrip | backend/app/entitlements/models.py:12-17 | every plan key parses back from its value |
| EntitlementModels.ParseBillingInterval | backend/app/entitlements/models.py:20-24 | a parsed interval has exactly the text it was parsed from |
| EntitlementModels.BillingIntervalRoundTrip | backend/app/entitlements/models.py:20-24 | every interval parses back from its value |
| EntitlementModels.ParseSubscriptionStatus | backend/app/entitlements/models.py:90-95 | a parsed status has exactly the text it was parsed from |
| EntitlementModels.SubscriptionStatusRoundTrip | backend/app/entitlements/models.py:90-95 | every status parses back from its value |
| EntitlementModels.FeatureBundle.Merge | backend/app/entitlements/models.py:43-55 | an override field wins only when it differs from the default: each flag becomes the disjunction of both bundles, and an override quota of exactly 5 GB keeps the base quota |
| EntitlementModels.MergeDefaultRight | backend/app/entitlements/models.py:43-55 | merging the default bundle changes nothing |
| EntitlementModels.MergeDefaultLeft | backend/app/entitlements/models.py:43-55 | merging into the default bundle yields the override |
| EntitlementModels.MergeIdempotent | backend/app/entitlements/models.py:43-55 | merging the same override twice equals merging it once |
| EntitlementModels.MergeAssociative | backend/app/entitlements/models.py:43-55 | merge is associative |
| EntitlementModels.MergeNeverRevokes | backend/app/entitlements/models.py:50-54 | an override can switch a flag on but never off |
| EntitlementModels.FeatureBundle.WithAddedStorage | backend/app/entitlements/models.py:57-60 | the quota grows by exactly the increment and every other field is unchanged |
| EntitlementModels.AddedStorageComposes | backend/app/entitlements/models.py:57-60 | adding m then n GB equals adding m + n GB |
| EntitlementModels.FeatureBundle.ToFlags | backend/app/entitlements/models.py:62-71 | the flag map has exactly the five flag keys, each holding its field |
| EntitlementModels.FlagsReadBack | backend/app/entitlements/models.py:62-71 | every field reads back from its flag through Python truthiness or `int()` |
| EntitlementModels.NewAddOnGrant | backend/app/entitlements/models.py:82-87 | a grant exists iff quantity >= 1; otherwise ValueError |
| EntitlementModels.NewEntitlementMembership | backend/app/entitlements/models.py:122-128 | a new membership defaults to an ordinary member consuming a seat |
| EntitlementModels.TagKindsDisjoint | backend/app/entitlements/models.py:146-152 | user, organization and subscription tags never coincide |
| EntitlementModels.TagsInjective | backend/app/entitlements/models.py:146-152 | tags of one kind coincide only for equal identifiers |
| EntitlementModels.EntitlementSubject.CacheKey | backend/app/entitlements/models.py:141-144 | the key starts with the user component, carries the organization component ("self" when unset or empty) right after it, and ends with the subscription component ("none" when unset or empty) |
| EntitlementModels.EntitlementSubject.Tags | backend/app/entitlements/models.py:146-152 | the user tag is always present; any other tag is the organization's or the subscription's, and only for a non-empty id |
| EntitlementModels.TagsExact | backend/app/entitlements/models.py:146-152 | an organization or subscription tag is present iff the subject or lookup carries that non-empty id |
| EntitlementModels.CacheKeySeparatesSubscriptions | backend/app/entitlements/models.py:141-144 | two different non-empty subscription ids give different cache keys |
| EntitlementModels.CacheKeySeparatesOrganizations | backend/app/entitlements/models.py:141-144 | subjects whose organization components differ get different cache keys, for the same user and subscription |
| EntitlementModels.EntitlementPayload.StorageQuotaGb | backend/app/entitlements/models.py:167-169 | the quota flag's value, 1 or 0 for a true or false flag, or 0 when the flag is absent |
| EntitlementModels.EntitlementPayload.ToClaims | backend/app/entitlements/models.py:171-186 | plan, flags and both instants are always present; organization, role and subscription appear iff set and non-empty; no other key appears |
| EntitlementModels.ClaimsPlanReadsBack | backend/app/entitlements/models.py:175 | the plan claim parses back to the payload's plan |
| Catalog.PlanDefinition.BundleForRole | backend/app/entitlements/catalog.py:28-32 | admins and owners get the member bundle merged with the admin override when the plan has one; other roles get the member bundle |
| Catalog.GetPlanDefinition | backend/app/entitlements/catalog.py:66-89 | every plan key has a catalog entry, filed under its own key, with at least one billing interval |
| Catalog.GetAddOnDefinition | backend/app/entitlements/catalog.py:91-96 | the storage add-on adds 100 GB and is filed under its own type |
| Catalog.TeamRoleBundles | backend/app/entitlements/catalog.py:57-64 | team admins and owners get org administration on top of the team bundle; members do not |
| Catalog.IndividualPlansIgnoreRole | backend/app/entitlements/catalog.py:28-32 | on the Free and Individual plans the role makes no difference |
| Catalog.CatalogShape | backend/app/entitlements/catalog.py:66-89 | only Team is billed per seat and Free supports no add-on |
| EntitlementCache.Get | backend/app/entitlements/cache.py:40-48 | a live entry's value is returned and the cache kept; an expired entry is a miss and is evicted; an absent key is a miss |
| EntitlementCache.Set | backend/app/entitlements/cache.py:50-60 | an entry already expired at `now` is not stored; otherwise exactly the key's entry is replaced |
| EntitlementCache.Invalidate | backend/app/entitlements/cache.py:62-72 | exactly the entries sharing a tag with the given tags are removed |
| EntitlementCache.Clear | backend/app/entitlements/cache.py:74-75 | no entry remains |
| EntitlementCache.SetThenGet | backend/app/entitlements/cache.py:40-60 | a value set with a future expiry is read back until it expires |
| EntitlementCache.ExpiredIsMiss | backend/app/entitlements/cache.py:30-31 | from its expiry instant on, an entry is not returned |
| EntitlementCache.InvalidateRemovesTag | backend/app/entitlements/cache.py:62-72 | after invalidating a tag, no entry carries it |
| EntitlementCache.InvalidateIdempotent | backend/app/entitlements/cache.py:62-72 | invalidating twice equals invalidating once |
| EntitlementCache.InvalidateCommutes | backend/app/entitlements/cache.py:62-72 | invalidations commute |
| Entitlements.NewHmacSigner | backend/app/entitlements/service.py:51-54 | a signer exists iff the secret is non-empty; otherwise ValueError |
| Entitlements.NewService | backend/app/entitlements/service.py:81 | the cache lifetime is at least 60 s and never below the requested one |
| Entitlements.ResolveSubscription | backend/app/entitlements/service.py:125-131 | a subscription is used iff the id is non-empty, known and active |
| Entitlements.SupportedIncrement | backend/app/entitlements/service.py:170-176 | the increment is 100 GB per unit of every grant when storage is supported, else 0 |
| Entitlements.ApplyAddOns | backend/app/entitlements/service.py:161-181 | the bundle gains the supported increment, and nothing when the plan supports no add-on |
| Entitlements.ComputePayload | backend/app/entitlements/service.py:133-159 | the plan is Free without a subscription, else the subscription's; the flags are the role's bundle plus add-on storage; the payload carries subject, role and subscription id |
| Entitlements.ResolveRole | backend/app/entitlements/service.py:96-106 | no role outside an organization; inside one, the membership's role, or LookupError without a membership |
| Entitlements.Compute | backend/app/entitlements/service.py:95-112 | a fresh result expires one lifetime after the injected clock and carries the token signed over its claims |
| Entitlements.GetEntitlements | backend/app/entitlements/service.py:83-114 | a live cached result is returned as is; otherwise the computed result is stored under the subject's key with its tags; no other entry changes |
| Entitlements.StoredEntryTagged | backend/app/entitlements/service.py:113 | a computed result that outlives the wall clock is cached with the subject's tags and its own expiry |
| Entitlements.RepeatedLookupsAgree | backend/app/entitlements/service.py:90-93 | a second lookup before expiry returns the first result, even if the repositories changed |
| Entitlements.ApplyInvalidation | backend/app/entitlements/service.py:116-123 | one call removes exactly the entries carrying its tag |
| Entitlements.ApplyInvalidations | backend/app/entitlements/service.py:116-123 | a trace of calls removes exactly the entries carrying any of their tags |
| Entitlements.InvalidationForcesRecompute | backend/app/entitlements/service.py:119-120 | after a subscription is invalidated, a lookup under it recomputes |
| Entitlements.IndividualProEntitlements | backend/app/entitlements/catalog.py:50-55 | Individual (Pro) grants every paid flag and 100 GB plus add-on storage |
| Entitlements.TeamAdminFlag | backend/app/entitlements/catalog.py:64 | on a Team subscription, org admin is set iff the role is admin or owner |
| Entitlements.NoSubscriptionIsFree | backend/app/entitlements/service.py:139-141 | without an active subscription the subject gets the Free plan and bundle |
| BillingModels.ParseCustomerType | backend/app/billing/models.py:13-17 | a parsed customer type has exactly the text it was parsed from |
| BillingModels.CustomerTypeRoundTrip | backend/app/billing/models.py:13-17 | every customer type parses back from its value |
| BillingModels.ParseInvoiceStatus | backend/app/billing/models.py:39-46 | a parsed invoice status has exactly the text it was parsed from |
| BillingModels.InvoiceStatusRoundTrip | backend/app/billing/models.py:39-46 | every invoice status parses back from its value |
| BillingModels.NewPurchaseIntent | backend/app/billing/models.py:58-75 | fails with ValueError exactly when fewer than one seat is asked for; otherwise the intent is pending, carries the given id and seat count, no provider session, no expiry and empty metadata |
| BillingModels.ValidateSubscription | backend/app/billing/models.py:80-101 | accepts a subscription exactly when it has at least one seat, unchanged; otherwise ValueError |
| BillingModels.ValidateInvoice | backend/app/billing/models.py:109-130 | accepts an invoice exactly when the amount is not negative and the currency has three characters; the stored currency is the upper-cased one and is a fixed point of upper-casing |
| Payload.Get | backend/app/billing/service.py:454-456 | a present key gives its value and an absent one the default |
| Payload.PyStr | backend/app/billing/service.py:459-462 | a string converts to itself and None to "None" |
| Payload.PyInt | backend/app/billing/service.py:466 | an integer converts to itself, a string converts exactly as its decimal parse does, and None, a datetime or a dict raises TypeError |
| Payload.PyIntOfPyStr | backend/app/billing/service.py:466 | an integer survives `int(str(n))` |
| Payload.ParseOptionalDatetime | backend/app/billing/service.py:509-517 | a falsy value is absent; a datetime is kept; a string is accepted exactly when it parses; only ValueError or TypeError is raised; a present result came from a truthy datetime or string |
| Payload.SafeMetadata | backend/app/billing/service.py:520-523 | a dict keeps exactly its keys, each value stringified; anything else gives the empty map |
| Payload.SafeMetadataOfStrings | backend/app/billing/service.py:520-523 | string-valued metadata comes back unchanged |
| Billing.SaveIntent | backend/tests/test_billing_service.py:38-42 | files the intent under its own id, touches no subscription or invoice, and keeps the store well-formed |
| Billing.InvalidationsFor | backend/app/billing/service.py:501-506 | two calls: the subscription first, then the user or the organization depending on the customer type |
| Billing.UpdateSubscriptionStatus | backend/tests/test_billing_service.py:66-84 | an unknown id gives nothing; otherwise only that record changes, to the new status, grace deadline and update time |
| Billing.CreateCheckoutSession | backend/app/billing/service.py:162-214 | fewer than one seat is refused with nothing changed; otherwise exactly one provider request is made, carrying the seat count, the caller's metadata and the intent id under `purchase_intent_id`; the pending intent stays stored even when the provider fails; on success the session id, expiry and url (or "") come from the provider's reply and the session id finds the intent; no other intent, subscription or audit entry changes |
| Billing.IntentBySession | backend/tests/test_billing_service.py:47-49 | finds an intent exactly when the session is indexed to a stored intent id |
| Billing.MarkIntentCompleted | backend/app/billing/service.py:230-255 | an unknown session changes nothing (LookupError); a session whose intent id is not stored is a RuntimeError that changes nothing; otherwise the intent is saved as completed even when an error follows, and the error is a KeyError exactly when the metadata lacks a non-empty `subscription_id`, and a LookupError exactly when that id names no stored subscription; errors add no audit entry or invalidation; success means the intent became completed, its metadata names a stored subscription, that subscription is returned, one activation is audited and its entitlements are invalidated; subscriptions never change |
| Billing.ParseTimes | backend/app/billing/service.py:467-475 | one value per listed datetime field; errors are ValueError or TypeError |
| Billing.ParseTimesSound | backend/app/billing/service.py:467-475 | succeeds exactly when every listed datetime field parses, and then gives each field its own parsed datetime in order |
| Billing.ParseSubscriptionKind | backend/app/billing/service.py:449-456 | a missing plan key is ValueError; the plan, interval, status and customer type have the text of their fields or of the defaults monthly, active and user |
| Billing.SubscriptionFromPayload | backend/app/billing/service.py:448-477 | a missing plan key is ValueError; errors are ValueError, KeyError or TypeError; a result is valid, has its kind, id, seat count and grace deadline from the payload |
| Billing.SubscriptionFromPayloadOk | backend/app/billing/service.py:448-477 | a payload whose every part parses yields the subscription assembled from those parts |
| Billing.SubscriptionKindRoundTrip | backend/app/billing/service.py:449-456 | the enum fields of a subscription's payload parse back to its kind |
| Billing.SubscriptionPayloadRoundTrip | backend/app/billing/service.py:448-477 | every valid subscription comes back unchanged from its webhook payload |
| Billing.SubscriptionWebhookKeepsGrace | backend/app/billing/service.py:472 | a payload with an active status, a grace deadline and otherwise parseable fields yields an active subscription that still carries that deadline, so the grace invariant is broken |
| Billing.OptionalText | backend/app/billing/service.py:493-494 | a truthy value is stringified, None stays absent, and validation fails exactly for falsy values other than None and "" |
| Billing.InvoiceFromPayload | backend/app/billing/service.py:479-499 | an empty subscription id is ValueError; an absent one becomes the text "None"; errors are ValueError or TypeError; results are valid invoices |
| Billing.InvoiceFromPayloadOk | backend/app/billing/service.py:479-499 | an invoice payload whose every part parses yields the invoice assembled from those parts |
| Billing.InvoicePayloadRoundTrip | backend/app/billing/service.py:479-499 | every valid invoice with a non-empty subscription id comes back unchanged from its payload |
| Billing.HandleSubscriptionEvent | backend/app/billing/service.py:364-386 | without a subscription dict, ValueError and nothing changes; any failure changes nothing; success upserts the parsed subscription, audits exactly one event (canceled, else activated when active, else updated), invalidates its entitlements and notifies nobody |
| Billing.HandlePaymentFailed | backend/app/billing/service.py:388-421 | without an invoice dict, ValueError and nothing changes; a failure leaves the subscriptions, notices, audit and invalidations alone; success records the invoice, makes the subscription past due with a deadline `grace_period_days` ahead, sends one failure notice, audits one failure with the invoice id and invalidates its entitlements |
| Billing.HandlePaymentSucceeded | backend/app/billing/service.py:423-446 | never notifies; success records the invoice, makes the subscription active without a grace deadline, audits one recovery with the invoice id and invalidates its entitlements; a failure leaves the subscriptions, audit and invalidations alone |
| Billing.Dispatch | backend/app/billing/service.py:262-271 | a handler never changes the seen-event set and adds at most one audit entry, keeping the store well-formed |
| Billing.HandleWebhook | backend/app/billing/service.py:257-271 | a known event id changes nothing; the event id is always recorded as seen; at most one audit entry is appended |
| Billing.WebhookReplayIsNoop | backend/app/billing/service.py:257-260 | delivering the same event again, at any time, changes nothing |
| Billing.ReconcileSeats | backend/app/billing/service.py:284-338 | an unknown subscription is LookupError and a negative count ValueError, both changing nothing; otherwise exactly one result is recorded: in sync iff the counts are equal, under-utilised iff there are fewer members, updated iff there are more members and the provider step completes, which upserts and invalidates the new record; the provider is asked exactly when there are more members, and the customer is notified exactly on an overage that needs action |
| Billing.OverageAfterSuccessfulUpsert | backend/app/billing/service.py:306-329 | when the invalidator raises after the upsert, the outcome asks for action although the new seat count is stored |
| Billing.ProcessGracePeriodExpiration | backend/app/billing/service.py:340-362 | an unknown subscription is LookupError with nothing changed; otherwise the subscription is canceled without a deadline, and one notice, one audit entry and its invalidations follow |
| Billing.StatusTransitionsKeepGraceConsistent | backend/app/billing/service.py:395-400 | after a payment failure, a payment success or a grace expiry the touched subscription has a grace deadline exactly when it is past due |
| Billing.InvalidationBridge | backend/app/billing/service.py:501-506 | the calls a billing change makes remove exactly the cache entries tagged with the subscription or its customer and keep every other entry unchanged |
| OrganizationModels.NewPolicyFlags | backend/app/organizations/models.py:13-30 | accepted exactly when the retention period is absent or not negative, keeping it; otherwise ValueError |
| OrganizationModels.NewMembership | backend/app/organizations/models.py:63-89 | a membership built with the declared defaults is an active member without billing administration, consumes a seat, and has no invite, acceptance or revocation times |
| OrganizationModels.NewInvitation | backend/app/organizations/models.py:92-111 | accepted exactly when the expiry is after the creation time; otherwise ValueError |
| Organizations.Rank | backend/app/organizations/service.py:78-82 | every role ranks between 1 and 3 |
| Organizations.AssignmentRule | backend/app/organizations/service.py:85-88 | an actor may assign a role exactly when the actor is an owner, the role is member, or the role is the actor's own; distinct roles have distinct ranks |
| Organizations.WithId | backend/tests/test_organizations_service.py:47-53 | a stored membership always has an id, keeps an existing one, and otherwise differs from the given one only in its id |
| Organizations.SaveMembership | backend/tests/test_organizations_service.py:47-53 | files the membership under its (organization, user) pair and changes nothing else |
| Organizations.RequireMembership | backend/app/organizations/service.py:264-268 | finds the membership exactly when one exists; otherwise LookupError |
| Organizations.RequireActiveMembership | backend/app/organizations/service.py:258-262 | succeeds exactly for an existing active membership; a missing one is LookupError and an inactive one PermissionError |
| Organizations.InvalidationsFor | backend/app/organizations/service.py:270-275 | the organization is invalidated first; its subscription when it has one and the user when given; no other call is made |
| Organizations.InvalidationsEvict | backend/app/organizations/service.py:270-275 | after the fan-out no cached entitlement tagged with the organization, the user or the organization's subscription is left |
| Organizations.InviteMember | backend/app/organizations/service.py:112-150 | a failure changes nothing; a missing organization or inviter membership is LookupError, and an inactive inviter or one who may not assign the role is PermissionError; it succeeds exactly when the inviter is active, may assign the role and the expiry (default now plus the lifetime) is after now; success stores the invitation under its generated token and logs one INVITE event with the role |
| Organizations.AcceptInvitation | backend/app/organizations/service.py:152-189 | a failure changes nothing; an unknown token or a missing organization is LookupError and an expired invitation PermissionError; success gives the user an active seat-consuming membership of the invited role that keeps any existing id, deletes the invitation, logs one ACCEPT event, invalidates entitlements and publishes one seat event |
| Organizations.RequireActorAndTarget | backend/app/organizations/service.py:192-194 | succeeds exactly when the organization exists, the actor is an active member and the target a member; the error is PermissionError only for an inactive actor, otherwise LookupError |
| Organizations.RemoveMember | backend/app/organizations/service.py:191-221 | succeeds exactly when the lookups pass and the removal is allowed (an owner target needs an owner actor; removing someone else needs a strictly higher rank); a refusal is PermissionError and changes nothing; success revokes the target as of now without deleting it, logs one REMOVE event, invalidates entitlements and publishes one seat event |
| Organizations.ChangeRole | backend/app/organizations/service.py:223-256 | succeeds exactly when the lookups pass, an owner target or an owner promotion has an owner actor, and the actor may assign the role; a refusal is PermissionError and changes nothing; success changes only the target's role, logs one ROLE_CHANGE event, invalidates entitlements and publishes no seat event |
| Organizations.NoOneRemovesAnotherOwner | backend/app/organizations/service.py:196-199 | no one can remove an owner other than themselves, and the attempt changes nothing |
| Organizations.MembersMayLeave | backend/app/organizations/service.py:198 | any active member may remove themselves, whatever their role |
| Organizations.OnlyOwnersMintOwners | backend/app/organizations/service.py:234-239 | a successful role change to owner, or of an owner, was made by an owner, and the new role never outranks the actor |
| Organizations.InviteThenAccept | backend/app/organizations/service.py:112-189 | an invitation can be accepted at the moment it is issued, giving an active seat-consuming membership of the invited role, consuming the invitation and publishing one seat event |
| Organizations.AcceptOnce | backend/app/organizations/service.py:152-175 | a second acceptance of the same token is LookupError |
| FeatureGates.FeatureGateError.Payload | backend/app/feature_gates/exceptions.py:19-30 | the payload holds `error` and `message` plus exactly the detail's keys; detail values win on a clash, and the code and the message show wherever the detail does not override them |
| FeatureGates.FeatureGateError.ToHttpException | backend/app/feature_gates/exceptions.py:32-35 | the HTTP error has the gate error's status and its payload as detail |
| FeatureGates.NewFeatureGateError | backend/app/feature_gates/exceptions.py:10-17 | a gate error raised without a status is a 403 with the given code, message and detail |
| FeatureGates.PlainErrorPayload | backend/app/feature_gates/exceptions.py:19-35 | without a detail the payload is exactly the code and the message, and the HTTP form is a 403 |
| FeatureGates.RequireEntitlement | backend/app/feature_gates/enforcement.py:9-41 | passes exactly when the flag is present and truthy; otherwise a 403 with the given code, the given message when non-empty or the default one naming the flag, and the missing flag in the detail and payload |
| FeatureGates.StorageQuotaEvaluation.ToDict | backend/app/feature_gates/quota.py:26-37 | exactly the seven fields under their Python names, each holding the evaluation's field of that name |
| FeatureGates.MaxZero | backend/app/feature_gates/quota.py:48 | the result is not negative, not below its argument, and is the argument or zero |
| FeatureGates.EvaluateStorageQuota | backend/app/feature_gates/quota.py:40-64 | a negative pending upload counts as zero; the projection is usage plus that upload; it warns exactly when the projection reaches the quota and allows exactly up to the quota times the threshold |
| FeatureGates.WarnBeforeBlock | backend/app/feature_gates/quota.py:49-54 | with a threshold of at least one, usage at the quota warns but is allowed, and every refusal is also warned about |
| FeatureGates.AllowedIsMonotone | backend/app/feature_gates/quota.py:48-54 | using less storage or uploading less never turns an allowed upload into a refused one |
| FeatureGates.AssertQuota | backend/app/feature_gates/quota.py:67-96 | passes with the evaluation exactly when it is allowed; otherwise a 403 "Storage quota exceeded." whose detail holds exactly the quota, the projected usage, the clamped pending upload and the threshold |
| FeatureGates.EntitlementContext.FeatureFlags | backend/app/feature_gates/context.py:18-20 | a copy of the payload's flags, key for key |
| FeatureGates.EntitlementContext.Require | backend/app/feature_gates/context.py:39-42 | raises exactly when the flag is not present and truthy, with the given code and the default message |
| FeatureGates.EntitlementContext.EvaluateQuota | backend/app/feature_gates/context.py:44-59 | evaluates against the payload's storage quota, with the default threshold of 1.1 when none is given |
| FeatureGates.EntitlementContext.AssertQuotaFor | backend/app/feature_gates/context.py:61-78 | passes exactly when the context's evaluation allows the upload; a refusal carries the code and the payload's quota |
| FeatureGates.DefaultThresholdExamples | backend/app/feature_gates/context.py:53-78 | on a 100 GB quota with the default threshold, 95 GB plus 10 GB pending warns but is allowed, and 105 GB plus 10 GB is refused with the quota in the error |
| GroupService.AdminIsModerator | backend/group_service.py:97-102 | every site admin is a site moderator, and being a site admin means having the role "admin" |
| GroupService.CanUpdateGroup | backend/group_service.py:105-112 | allowed exactly for site admins and moderators and for the group's owners and moderators |
| GroupService.IsActorGroupModerator | backend/group_service.py:115-122 | agrees with `can_update_group` on every input |
| GroupService.CanManageMembership | backend/group_service.py:125-147 | site admins and group owners always may; an actor who is no moderator never may; anyone else may exactly when the target is no owner and the desired role is not owner |
| GroupService.ManageMembershipRule | backend/group_service.py:125-147 | the whole rule as one formula, and plain members and role-less users may never manage memberships |
| GroupService.RolePriority | backend/group_service.py:150-153 | between 0 and 3, and positive exactly for the three group roles |
| GroupService.RolePriorityOrder | backend/group_service.py:13 | member ranks below moderator, which ranks below owner, and distinct group roles have distinct priorities |
| GroupFilters.KnownValuesNormalized | backend/group_service.py:8-9 | every privacy state and group role is unchanged by stripping and lower-casing |
| GroupFilters.NormalizedVisibility | backend/group_filters.py:15-45 | the reference reading: errors are 400s; a result is non-empty, has no duplicates and holds only privacy states |
| GroupFilters.AddFragments | backend/group_filters.py:33-43 | succeeds exactly when every non-empty cleaned fragment is a privacy state, giving the options seen so far followed by the new fragments, each kept once in order of first appearance |
| GroupFilters.NormalizeVisibilityFilter | backend/group_filters.py:15-45 | the loop over the values and their comma-separated fragments answers exactly the reference reading: public when absent or empty, a 400 for a non-string or an unknown state, otherwise the distinct states in order of first appearance |
| GroupFilters.Without | backend/groups.py:226 | the result is the list without the value, keeping every other element and staying free of duplicates |
| GroupFilters.ListedStates | backend/groups.py:219-226 | fails exactly when the filter is rejected, with a 400; otherwise lists exactly the normalized states, with "private" kept only for site moderators and admins, without duplicates |
| GroupRoutes.NormalizePrivacyState | backend/groups.py:121-125 | a missing or empty value is public; otherwise accepted exactly when the trimmed, lower-cased value is a privacy state, which is the answer; refusals are 400s |
| GroupRoutes.PrivacyStateIdempotent | backend/groups.py:121-125 | a normalized privacy state normalizes to itself |
| GroupRoutes.ValidateRole | backend/groups.py:198-202 | accepted exactly when the trimmed, lower-cased role is a group role, which is the answer and has a positive priority; refusals are 400s |
| GroupRoutes.ValidateRoleIdempotent | backend/groups.py:198-202 | a validated role validates to itself |
| GroupRoutes.EnsureGroupVisibility | backend/groups.py:170-185 | visible exactly to site moderators, to members, and to the signed-in creator with a non-zero id; everyone else gets 403 |
| GroupRoutes.AnonymousNeedsMembership | backend/groups.py:170-185 | an anonymous viewer is refused unless a membership is given |
| GroupRoutes.SearchPattern | backend/groups.py:239-242 | a pattern exists exactly when the trimmed search text is not empty, and is wrapped in `%` |
| GroupRoutes.PlanListing | backend/groups.py:210-253 | fails exactly when the filter is rejected; answers an empty page without a query exactly when no state is left; a query lists the viewer's states, the search pattern and the offset of the page |
| GroupRoutes.NoPrivateForOrdinaryViewers | backend/groups.py:223-226 | a listing never queries private groups for a viewer who is not a site moderator |
| GroupRoutes.InsertGroup | backend/groups.py:280-302 | stores the group under its id and makes the creator an owner unless that membership exists; invites and emails are untouched; unique slugs and id keys are kept |
| GroupRoutes.CreateGroup | backend/groups.py:269-305 | a body breaking the field constraints declared at backend/groups.py:59-60 (a stripped slug outside 3 to 80 characters or a stripped name outside 1 to 255) is a 422 with nothing changed; otherwise it fails, changing nothing and with a 400, exactly when the privacy state is rejected or the normalized slug is taken; a new group has the lower-cased slug, trimmed name, normalized privacy state, a description only when one was given, and the creator as its creator |
| GroupRoutes.CreateGroupKeepsSlugsUnique | backend/groups.py:288-302 | creating a group keeps slugs unique and makes the creator the owner of a fresh group |
| GroupRoutes.RemoveGroupMember | backend/groups.py:421-454 | a failure changes nothing; an unknown group is 404; removing a non-member succeeds and changes nothing; 403 exactly when the actor may not manage the target; success deletes exactly that membership, and an owner is removed only when there are at least two |
| GroupRoutes.Lookup | backend/groups.py:429-432 | a role exactly when the user has a membership, namely its role |
| GroupRoutes.RemoveOwnerCount | backend/groups.py:440-451 | removing one owner leaves one owner fewer |
| GroupRoutes.OwnersSurviveRemoval | backend/groups.py:440-448 | a group that has an owner keeps one through any removal |
| GroupRoutes.JoinGroup | backend/groups.py:456-497 | a failure changes nothing; an unknown group is 404; an existing member gets their role back with nothing changed; 403 exactly for a non-member of an invite-only group; a success records the answered role for the caller and touches no group or invite |
| GroupRoutes.JoinIdempotent | backend/groups.py:463-474 | joining twice answers and stores the same as joining once |
| GroupRoutes.JoinedRoleIsNotAGroupRole | backend/groups.py:486 | the inserted role "viewer" is not a group role, has priority 0, and lets a non-moderator manage nothing |
| GroupRoutes.UserEmail | backend/groups.py:188-195 | an email exactly when the user has a non-empty one, lower-cased |
| GroupRoutes.AcceptGroupInvite | backend/groups.py:572-649 | an unknown code is 404 and a non-pending invite 400, changing nothing; an invite expired strictly before now is 400 and is marked expired; a wrong invitee is 403 with nothing changed; success needs a pending, unexpired invite for the right user and email, makes the caller a "viewer" unless already a member, answers the caller's role, and marks the invite accepted, naming the caller when it named nobody |
| GroupRoutes.InviteUsedOnce | backend/groups.py:596-604 | after an acceptance, or after the invite was found expired, accepting the same code again is a 400 that changes nothing |
| GroupRoutes.InviteGoodAtExpiry | backend/groups.py:599-600 | an invite can still be accepted at the very instant it expires |
| GroupRoutes.AcceptedCallerIsMember | backend/groups.py:615-623 | after a successful acceptance the caller is a member of the group |
| MainKernels.ReplaceRuns | backend/main.py:474 | the shape of the run replacement: the result holds only a-z, 0-9 and hyphens, never two hyphens in a row, is empty exactly when the input is, and starts with a hyphen exactly when the input starts outside the class |
| MainKernels.ReplaceRunsContent | backend/main.py:474 | the run replacement keeps the input's a-z and 0-9 characters in order, and has exactly one hyphen per maximal run of other characters, counted independently of the replacement |
| MainKernels.ReplaceRunsLast | backend/main.py:474 | the result ends in a hyphen exactly when the input ends outside a-z and 0-9 |
| MainKernels.SlugifyTag | backend/main.py:477-482 | no slug exactly when there is no value or the trimmed, lower-cased value has no a-z or 0-9 character; a slug returned is made of a-z, 0-9 and single inner hyphens with none at either end, holds exactly the letters and digits of the trimmed, lower-cased value in order, and has one hyphen per run of other characters between two of them |
| MainKernels.DashTrimmedKeeps | backend/main.py:480-482 | stripping the outer hyphens after the run replacement keeps every letter and digit, leaves nothing exactly when there were none, and otherwise drops one hyphen for each outer run |
| MainKernels.ReplaceRunsFixes | backend/main.py:474 | text already made of slug characters with no doubled hyphen is left unchanged by the run replacement |
| MainKernels.SlugFixed | backend/main.py:477-482 | every slug slugifies to itself |
| MainKernels.SlugifyIdempotent | backend/main.py:477-482 | slugifying a slug gives the same slug |
| MainKernels.TagOf | backend/main.py:491-498 | a raw tag yields a pair only when present, and the pair's name is the stripped, non-empty raw text |
| MainKernels.KeepFirstSlugs | backend/main.py:494-500 | the kept tags have pairwise distinct slugs, each comes from the input, and every input slug is represented |
| MainKernels.TagInputs | backend/main.py:485-501 | the normalized tag list never repeats a slug |
| MainKernels.TagInputsComplete | backend/main.py:485-501 | every output pair comes from some raw tag, and every raw tag that yields a pair has its slug in the output |
| MainKernels.FirstTagWins | backend/main.py:497-500 | a tag whose slug no earlier tag had is kept with its own spelling |
| MainKernels.NormalizeTagInputs | backend/main.py:485-501 | the loop over the raw tags computes the normalized list; no list at all gives the empty list |
| MainKernels.NormalizeSnippetVisibility | backend/main.py:503-507 | a missing or empty value is public; otherwise accepted exactly when the trimmed, lower-cased value is public or private, which is the answer; refusals are 400s |
| MainKernels.SnippetVisibilityIdempotent | backend/main.py:503-507 | an accepted visibility normalizes to itself |
| MainKernels.PyPrefix | backend/main.py:146 | Python's prefix slice: a prefix of the text, of the requested length capped by the text, counted from the end when negative |
| MainKernels.TruncateErrorMessage | backend/main.py:144-147 | messages within the limit are kept; longer ones become a prefix of the message followed by an ellipsis, exactly the limit long when the limit is at least three |
| MainKernels.TruncateIdempotent | backend/main.py:144-147 | with a limit of at least three the result fits the limit, and truncating again changes nothing |
| MainKernels.PruneTokenStore | backend/main.py:210-218 | a user keeps their record exactly when it has not expired by the given time, and kept records are unchanged |
| MainKernels.PruneMonotone | backend/main.py:210-218 | pruning twice at one time is pruning once, and pruning later keeps no more users |
| MainKernels.IssueToken | backend/main.py:221-234 | the store gains or replaces the user's record with the new token, email and expiry at now plus the lifetime, which are returned; other users' records are untouched |
| MainKernels.IssueFromStore | backend/main.py:237-246 | issuing an onboarding or password-reset token prunes the store first and uses the lifetime in minutes |
| MainKernels.IssueReplacesAndSurvives | backend/main.py:210-234 | issuing twice leaves only the second token, and an issued token survives pruning before its expiry but not at it |
| MainKernels.MentionAt | backend/main.py:670 | a handle found at a position is one to eighty word characters |
| MainKernels.FirstSpellingsSound | backend/main.py:674-679 | every handle's lower-cased form is a key, mapped to one of the handles with that lower-cased form |
| MainKernels.ExtractedMentions | backend/main.py:673-680 | every mention is a handle in the text, no two differ only in case, and every handle is represented up to case |
| MainKernels.FirstSpellingIsFirst | backend/main.py:677-679 | the spelling kept for a handle is the first one in the text |
| MainKernels.ExtractMentions | backend/main.py:673-680 | the scan over the text computes the extracted mention set |
| MainKernels.MentionIds | backend/main.py:727 | the mentioned ids other than the actor, each once, in increasing order |
| MainKernels.ReplyEvents | backend/main.py:707-726 | the snippet owner, then the parent comment's author, are notified exactly when present, non-zero and not the actor, with the reply kind each is due |
| MainKernels.BuildCommentNotifications | backend/main.py:698-737 | the reply notifications come first, then one mention per mentioned id in increasing order |
| MainKernels.CommentNotificationsSkipActor | backend/main.py:698-737 | no notification goes to the actor, and every one names the actor, the snippet and the comment |
| MainKernels.CommentNotificationsMentions | backend/main.py:727-736 | a user other than the actor gets a mention notification exactly when mentioned |
| Engagement.RunEnding | backend/app/services/engagement.py:132-136 | the run counted at a position is at least one and reaches no further back than the list's start |
| Engagement.RunIsConsecutive | backend/app/services/engagement.py:132-136 | inside the run counted at a position every step is one day, and the day just before the run does not continue it |
| Engagement.MaxRun | backend/app/services/engagement.py:137-138 | the longest of the runs ending at the first positions: no run exceeds it and one attains it |
| Engagement.LongestStreak | backend/app/services/engagement.py:126-140 | zero exactly when there are no days; otherwise the length of the longest run of consecutive days, at most the number of days |
| Engagement.ComputeLongestStreak | backend/app/services/engagement.py:126-140 | the loop over the days computes the longest streak |
| Engagement.ChainDown | backend/app/services/engagement.py:157-159 | the count of consecutive days present counting down from the cursor: all those days are present and the next one down is not |
| Engagement.DaySet | backend/app/services/engagement.py:147 | the set of active days holds exactly the listed days |
| Engagement.CurrentStreakOf | backend/app/services/engagement.py:143-161 | no days give no streak, not active and no last day; otherwise the last day is the latest day, active today exactly when today is listed, a streak exactly when today or yesterday is listed, and then its length is the run of listed days ending there |
| Engagement.ComputeCurrentStreak | backend/app/services/engagement.py:143-161 | the cursor loop computes the current streak |
| Engagement.ChainWithinRun | backend/app/services/engagement.py:126-161 | in a strictly increasing list, a chain of days counting down from a listed day lies inside the run ending at that day |
| Engagement.CurrentAtMostLongest | backend/app/services/engagement.py:126-161 | for sorted distinct days the current streak never exceeds the longest streak |
| Engagement.BadgesAscending | backend/app/services/engagement.py:57-63 | the badge thresholds strictly increase |
| Engagement.LastReached | backend/app/services/engagement.py:167-169 | a badge is found exactly when some threshold is reached, and it is the reached badge with the highest threshold when thresholds ascend |
| Engagement.FirstUnreached | backend/app/services/engagement.py:170-172 | a badge is found exactly when some threshold is not reached, and it is the unreached badge with the lowest threshold when thresholds ascend |
| Engagement.SelectBadges | backend/app/services/engagement.py:164-175 | the current badge is the highest one reached and the next is the lowest one not reached |
| Engagement.SelectFrom | backend/app/services/engagement.py:164-175 | over ascending badges the loop with its early exit finds the highest reached badge and the lowest unreached one |
| Engagement.UnreachedFrom | backend/app/services/engagement.py:167-172 | skipping reached badges does not change the first unreached badge |
| Engagement.ReachedBefore | backend/app/services/engagement.py:170-172 | with ascending thresholds nothing after the first unreached badge is reached, so stopping there loses nothing |
| Engagement.BadgeChoice | backend/app/services/engagement.py:57-175 | a current badge exists exactly from a streak of one, a next badge exactly below thirty, each being the highest reached and lowest unreached threshold |
| Engagement.RenderSnippetExcerpt | backend/app/services/engagement.py:212-221 | the snippet text, or the thoughts when that is blank, with its words kept in order and single-spaced when there are at most fifty, else the first fifty words followed by the three characters U+00E2 U+20AC U+00A6 that the source file spells |
| Engagement.RenderSnippetExcerptCorrected | backend/app/services/engagement.py:212-221 | the same excerpt, single-spaced, with more than fifty words cut to fifty followed by one horizontal ellipsis U+2026 |
| Engagement.ExcerptMarkerAsWritten | backend/app/services/engagement.py:219-221 | a text of more than fifty words ends in U+00E2 U+20AC U+00A6 and not in U+2026; the corrected excerpt is the same text with those three characters replaced by one U+2026 |
| DirectMessages.ParticipantKeyRoundTrip | backend/app/services/direct_messages.py:46-48 | a participant key reads back as its two ids, smaller first |
| DirectMessages.ParticipantKeyIdentifiesPair | backend/app/services/direct_messages.py:46-48 | two pairs share a key exactly when they are the same two users in either order |
| DirectMessages.FindUser | backend/app/services/direct_messages.py:56-65 | the first user whose lower-cased name is the wanted one, or none exactly when no user matches |
| DirectMessages.EnsureUsername | backend/app/services/direct_messages.py:51-68 | a blank name is a ValueError, an unmatched name a LookupError, and otherwise the answer is a stored user whose name matches ignoring case |
| DirectMessages.OpenThread | backend/app/services/direct_messages.py:230-260 | the pair's key ends up registered to the returned thread; an existing thread changes nothing, a new one takes the next id with both users as participants; other keys, messages and read markers are untouched |
| DirectMessages.StartThread | backend/app/services/direct_messages.py:219-274 | an unknown or blank target fails as looking it up fails, a thread with oneself is a ValueError, and otherwise the pair's thread is opened; failures change nothing |
| DirectMessages.OpenThreadIdempotent | backend/app/services/direct_messages.py:230-260 | opening the pair's thread again, from either side, finds the same thread and changes nothing |
| DirectMessages.ValidateBody | backend/app/services/direct_messages.py:403-407 | accepted exactly when the stripped body has 1 to 280 characters, which is the answer; otherwise ValueError |
| DirectMessages.ValidBodyIsFixed | backend/app/services/direct_messages.py:403-407 | an accepted body has no surrounding space and is accepted again unchanged |
| DirectMessages.CountUnread | backend/app/services/direct_messages.py:354-367 | zero exactly when no message is in the thread, from someone else and past the read marker |
| DirectMessages.SendMessage | backend/app/services/direct_messages.py:395-452 | a bad body is a ValueError before the participant test, a non-participant a PermissionError, both changing nothing; a sent message takes the next id and is appended, the sender's read marker becomes its id, no other marker changes, users, thread keys and participants are untouched, ids stay increasing, and the sender has nothing unread afterwards |
| DirectMessages.LatestId | backend/app/services/direct_messages.py:339-351 | none exactly when the thread has no message; otherwise the largest id among the thread's messages |
| DirectMessages.MarkThreadRead | backend/app/services/direct_messages.py:370-392 | a non-participant gets a PermissionError and nothing changes; for a participant the read marker becomes the thread's latest message id, or is cleared when the thread has none, no other marker changes, and the returned zero is the unread count of the new store; messages and threads are untouched |
| DirectMessages.MarkThreadReadIdempotent | backend/app/services/direct_messages.py:370-392 | marking a thread read a second time gives the same answer and changes nothing |
| DirectMessages.ClampLimit | backend/app/services/direct_messages.py:299 | the limit clamped into 1 to 100, unchanged inside that range |
| DirectMessages.ThreadMessagesSound | backend/app/services/direct_messages.py:309 | exactly the thread's messages, in increasing id order when the store's are |
| DirectMessages.EarlierMembers | backend/app/services/direct_messages.py:310-312 | exactly the messages below the cursor id, all of them without a cursor |
| DirectMessages.EarlierIsPrefix | backend/app/services/direct_messages.py:310-312 | with increasing ids the admitted rows are a prefix and every later row is refused |
| DirectMessages.EarlierThan | backend/app/services/direct_messages.py:310-312 | the rows below the id of a row are exactly the rows before it |
| DirectMessages.PageOf | backend/app/services/direct_messages.py:313-336 | a page holds at most the limit, reports more rows exactly when more than the limit were admitted, and hands back a cursor exactly then |
| DirectMessages.PageOfShape | backend/app/services/direct_messages.py:313-336 | the page is the newest admitted rows up to the limit in ascending order, and its cursor reads back as the id of its oldest row |
| DirectMessages.ListMessages | backend/app/services/direct_messages.py:291-336 | non-participants get exactly a PermissionError; a page holds at most the clamped limit and has more, and a cursor, exactly when more rows were admitted |
| DirectMessages.CandidatesArePrefix | backend/app/services/direct_messages.py:305-315 | the rows a query admits are the first rows of the thread, in increasing id order |
| DirectMessages.ListMessagesPage | backend/app/services/direct_messages.py:291-336 | a page is the newest admitted rows up to the clamped limit, oldest first, with strictly increasing ids |
| DirectMessages.PageContinues | backend/app/services/direct_messages.py:310-336 | the rows below a full page's oldest row, followed by the page, are all the rows the page was cut from |
| DirectMessages.SuffixContinues | backend/app/services/direct_messages.py:310-312 | the rows below the id at a cut, followed by the rows from the cut, are all the admitted rows |
| DirectMessages.ListMessagesContinues | backend/app/services/direct_messages.py:291-336 | the next cursor reads back as the oldest row's id, and the rows it admits followed by the page are exactly the rows this cursor admitted, so paging neither skips nor repeats a message |
| DirectMessages.ListMessagesExhausts | backend/app/services/direct_messages.py:318-336 | a page reporting no more rows returns everything the cursor admitted |
| NotificationModels.DefaultPreferences | backend/app/schemas/notifications.py:76-93 | the defaults switch every notification type on and send weekly digests |
| Notifications.CreateNotification | backend/app/services/notifications.py:93-139 | the stored row carries the event's fields, the next id and the current time, starts unread, and is appended; preferences are untouched |
| Notifications.CreateKeepsOrder | backend/app/services/notifications.py:93-139 | with a clock that does not run backwards, creation keeps the listing keys in insertion order |
| Notifications.ClampPageSize | backend/app/services/notifications.py:149 | the page size clamped into 1 to 100, unchanged inside that range |
| Notifications.DecodeCursor | backend/app/services/notifications.py:59-67 | an absent cursor filters nothing, a decodable one gives its key, and only an undecodable one is a ValueError |
| Notifications.ForUser | backend/app/services/notifications.py:175 | exactly the user's notifications, in key order when the store's are |
| Notifications.EarlierMembers | backend/app/services/notifications.py:154-156 | exactly the rows whose (created_at, id) key is below the cursor, all of them without one |
| Notifications.EarlierIsPrefix | backend/app/services/notifications.py:154-156 | with increasing keys the admitted rows are a prefix and every later row is refused |
| Notifications.EarlierThan | backend/app/services/notifications.py:154-156 | the rows below a row's key are exactly the rows before it |
| Notifications.Fetched | backend/app/services/notifications.py:158-177 | the query returns the newest admitted rows, at most one more than the page size, more than the page size exactly when more were admitted |
| Notifications.PageAsWritten | backend/app/services/notifications.py:185-191 | as written: at most a page of items, and a cursor exactly when more rows were admitted than fit |
| Notifications.PageCorrected | backend/app/services/notifications.py:185-191 | with the cursor from the last returned row: at most a page of items, and a cursor exactly when more rows were admitted than fit |
| Notifications.PageItems | backend/app/services/notifications.py:176-191 | both page builders return the newest admitted rows up to the page size, newest first |
| Notifications.ListNotificationsAsWritten | backend/app/services/notifications.py:142-191 | as written: fails exactly on an undecodable cursor, with a ValueError |
| Notifications.ListNotifications | backend/app/services/notifications.py:142-191 | fails exactly on an undecodable cursor; otherwise at most the clamped page size of items, with a next cursor exactly when more rows were admitted |
| Notifications.SuffixContinues | backend/app/services/notifications.py:154-156 | the rows below the key at a cut, followed by the rows from the cut, are all the admitted rows |
| Notifications.FullPageParts | backend/app/services/notifications.py:185-188 | on a full page both builders return the newest rows; as written the cursor is the key of the next row down, corrected it is the key of the oldest returned row |
| Notifications.AsWrittenSkipsPoppedRow | backend/app/services/notifications.py:154-188 | as written, the next page's rows, the popped row and this page make up what this cursor admitted, and the popped row is on neither page |
| Notifications.CorrectedContinues | backend/app/services/notifications.py:154-188 | with the corrected cursor, the next page's rows followed by this page are exactly what this cursor admitted |
| Notifications.NewestSuffix | backend/app/services/notifications.py:167-168 | the last rows of a key-ordered sequence, back to front, are in strictly descending key order and newer than every row before them |
| Notifications.ListNotificationsNewestFirst | backend/app/services/notifications.py:142-191 | on a valid store both listings return the same items: only the user's notifications the cursor admits, in strictly descending `(created_at, id)` order, with no admitted notification left off the page newer than one on it |
| Notifications.ListNotificationsContinues | backend/app/services/notifications.py:142-191 | listing a valid store, the corrected next cursor resumes exactly after the page, neither skipping nor repeating a notification |
| Notifications.OneRowPage | backend/app/services/notifications.py:185-188 | with a page size of one, both builders return the newest row; as written the cursor is the second newest row's key, corrected it is the newest row's key |
| Notifications.ThreeCandidates | backend/app/services/notifications.py:154-175 | for a store of three rows for one user, no cursor admits all three and a row's key admits exactly the rows before it |
| Notifications.AsWrittenMissesMiddleNotification | backend/app/services/notifications.py:185-188 | paging one at a time through three notifications as written returns the newest, then the oldest, and never the middle one |
| Notifications.CorrectedListsEveryNotification | backend/app/services/notifications.py:142-191 | the corrected listing visits all three notifications, newest first |
| Notifications.MarkReadIds | backend/app/services/notifications.py:215-217 | the ids without repeats, holding exactly the input ids; nothing to do exactly when none were given |
| Notifications.MarkReadIdsOrder | backend/app/services/notifications.py:215 | the deduplicated ids keep the order in which they first appear |
| Notifications.MarkRows | backend/app/services/notifications.py:222-226 | exactly the user's rows with a listed id become read; every other row is unchanged |
| Notifications.UpdatedIds | backend/app/services/notifications.py:226-231 | an id is returned exactly when it is the id of one of the user's rows with a listed id; no more ids than rows |
| Notifications.MarkRead | backend/app/services/notifications.py:209-231 | no ids give no answer and no change; otherwise exactly the user's rows with a listed id become read, and the answer holds exactly the ids of those rows (nothing for another user's or a missing row); nothing else changes |
| Notifications.UnreadCount | backend/app/services/notifications.py:194-206 | zero exactly when every one of the user's notifications is read |
| Notifications.MarkReadClearsAndSettles | backend/app/services/notifications.py:209-231 | marking all of a user's ids leaves nothing unread, and marking the same ids again changes nothing |
| Notifications.PreparePreferencesPayload | backend/app/services/notifications.py:86-90 | every setting the update gives wins, and every other setting takes its default |
| Notifications.GetPreferences | backend/app/services/notifications.py:234-275 | the stored preferences, or the defaults with weekly digests when the user has none |
| Notifications.UpsertPreferences | backend/app/services/notifications.py:278-335 | the stored row becomes the prepared payload, so settings the update omits return to their defaults; notifications and other users' preferences are untouched |
| EmailDigest.WindowStart | backend/app/services/email_digest.py:88-91 | the window opens one day back for daily digests and seven days back for any other frequency |
| EmailDigest.DailyWindowInsideWeekly | backend/app/services/email_digest.py:88-91 | the daily window lies inside the weekly one |
| EmailDigest.NormalizeBaseUrl | backend/app/services/email_digest.py:94-98 | empty exactly when the setting is blank; otherwise the trimmed setting without trailing slashes, followed by exactly one slash |
| EmailDigest.NormalizeBaseUrlIdempotent | backend/app/services/email_digest.py:94-98 | normalizing a normalized base url changes nothing |
| EmailDigest.BuildItemLink | backend/app/services/email_digest.py:108-118 | no link exactly without a base url; otherwise the link extends the base url, and points at the inbox when the row has no snippet |
| EmailDigest.DecodeItemLink | backend/app/services/email_digest.py:108-118 | a link reads back only when it extends the base url |
| EmailDigest.ItemLinkRoundTrip | backend/app/services/email_digest.py:108-118 | every link reads back as the target it was built for: the comment anchor when the row has a snippet and a comment, the snippet when it has only a snippet, else the inbox |
| EmailDigest.CandidateRows | backend/app/services/email_digest.py:192-223 | exactly the rows whose owner chose this frequency and that are unread, not yet emailed and inside the window |
| EmailDigest.RowsOf | backend/app/services/email_digest.py:253-263 | exactly the rows belonging to the user, in order |
| EmailDigest.ShareOf | backend/app/services/email_digest.py:253-263 | a user's share holds all of that user's rows, with the address of the user's first row |
| EmailDigest.GroupRows | backend/app/services/email_digest.py:252-263 | one share per user, no user twice, each holding all of that user's rows with the first row's address, and every row's user has a share |
| EmailDigest.SharesOf | backend/app/services/email_digest.py:252-263 | one share per listed user, in the listed order |
| EmailDigest.UsersCovered | backend/app/services/email_digest.py:252-263 | the users in first-seen order cover every row's user |
| EmailDigest.IdsOf | backend/app/services/email_digest.py:300 | the ids of the rows, in order |
| EmailDigest.Dispatch | backend/app/services/email_digest.py:267-302 | the delivered count is the number of stamped ids, at most one digest or failure per user, and ids are stamped exactly when some digest was sent |
| EmailDigest.DeliveredIdsCons | backend/app/services/email_digest.py:267-302 | the ids delivered to all users are the first user's plus the rest's |
| EmailDigest.IdsOfSent | backend/app/services/email_digest.py:300 | a sent user's stamped ids are exactly that user's row ids |
| EmailDigest.DispatchMarksDelivered | backend/app/services/email_digest.py:267-314 | the run stamps exactly the ids of the rows of users whose digest was sent; skipped and failed users contribute nothing |
| EmailDigest.DispatchCounts | backend/app/services/email_digest.py:267-302 | no digest is counted exactly when no user was addressable and accepted, and no failure exactly when no addressable user was refused |
| EmailDigest.SendEmailDigests | backend/app/services/email_digest.py:226-316 | the off frequency does nothing; the delivered count is the number of stamped ids, and ids are stamped exactly when some digest was sent |
| EmailDigest.DigestMarksExactlyDelivered | backend/app/services/email_digest.py:226-316 | a run stamps exactly the selected rows of users whose digest was sent, and counts at most one digest or failure per user |
| EmailDigest.BuildDigestItems | backend/app/services/email_digest.py:121-144 | one item per row, in order, carrying the row's id, with a link exactly when there is a base url |
| EmailDigest.DigestItemLinks | backend/app/services/email_digest.py:121-144 | with a base url every item's link reads back as its notification's comment, snippet or the inbox |
| EnvSettings.Get | backend/email/providers.py:203 | a setting is present exactly when the environment names it, with its value |
| EnvSettings.GetOr | backend/email/providers.py:204 | the environment's value when it names the setting, otherwise the default |
| EnvSettings.OrNone | backend/email/providers.py:210-211 | an empty or missing value counts as unset; any other value is kept |
| EnvSettings.FirstSet | backend/email/providers.py:216-226 | the first non-empty of the two settings, unset only when both are empty or missing |
| EnvSettings.ToBool | backend/email/providers.py:13-21 | a true word gives true and a false word false, ignoring case and surrounding space; the result differs from the default only because of such a word |
| EnvSettings.ToBoolRoundTrip | backend/mail/config.py:25-33 | the canonical spelling of a boolean, padded or in any case, reads back as that boolean |
| EnvSettings.BoolWordsDisjoint | backend/mail/config.py:29-32 | no word is both true and false |
| EnvSettings.ToInt | backend/email/providers.py:24-30 | a missing or empty value gives the default; otherwise the parsed integer, or a ValueError exactly when the text is not an integer |
| EnvSettings.ToIntOr | backend/mail/config.py:36-42 | with an integer default, the same verdict and value as the general integer reader |
| EnvSettings.ToIntRoundTrip | backend/mail/config.py:36-42 | any integer written in decimal reads back |
| EnvSettings.ToFloat | backend/mail/config.py:45-51 | a missing or empty value gives the default; otherwise fails exactly when the float parser fails, with a ValueError |
| EmailProviders.ProviderName | backend/email/providers.py:203 | never empty and already trimmed and lower-cased; the trimmed, lower-cased setting when that is not blank, else smtp |
| EmailProviders.SmtpPort | backend/email/providers.py:209 | never zero; an unreadable port is the reader's ValueError; an unset or empty one is 25; any other result is the configured port |
| EmailProviders.LoadEmailConfig | backend/email/providers.py:199-241 | fails with a ValueError exactly when the rate limit or the port is set but unreadable; otherwise every field is its setting or its default, SES credentials falling back to the AWS names |
| EmailProviders.EmptyEnvDefaults | backend/email/providers.py:199-241 | an empty environment gives SMTP on localhost port 25 with TLS, the default sender, and no credentials or rate limit |
| EmailProviders.CreateEmailProvider | backend/email/providers.py:244-285 | fails with a ValueError exactly when SendGrid lacks its key or SES lacks one of its three credentials; a built provider carries the configured credentials and rate limit, and any other name gives SMTP |
| EmailProviders.LoadedSmtpPortNonZero | backend/email/providers.py:209-285 | an SMTP provider from a loaded configuration never uses port 0, and a name other than sendgrid or ses always yields a provider |
| EmailProviders.SesCredentialFallback | backend/email/providers.py:216-220 | the SES access key comes from its own name when set, else from the AWS name |
| MailConfig.ProviderName | backend/mail/config.py:59 | never empty and already trimmed and lower-cased; the trimmed, lower-cased setting when that is not blank, else dev |
| MailConfig.MaxAttempts | backend/mail/config.py:70 | at least one; an unreadable count is the reader's ValueError; a result above one is the configured count |
| MailConfig.BackoffSeconds | backend/mail/config.py:71 | never negative; an unreadable backoff is the parser's ValueError; a positive result is the configured backoff |
| MailConfig.LoadMailConfig | backend/mail/config.py:54-84 | fails with a ValueError exactly when the port, attempt count or backoff is set but unreadable; otherwise every field is its setting or default, the base url loses trailing slashes, at least one attempt is made and the backoff is not negative |
| MailConfig.BaseUrlHasNoTrailingSlash | backend/mail/config.py:68-81 | the loaded base url never ends in a slash and is the configured url with only trailing slashes removed |
| MailConfig.EmptyEnvDefaults | backend/mail/config.py:54-84 | an empty environment gives the dev provider, port 587 with TLS on localhost, the local app url, three attempts and a two-second backoff |
| MailConfig.RetryPolicyFloors | backend/mail/config.py:70 | a configured attempt count below one still allows one attempt |

## Left out

- SQL persistence and HTTP routing. The repositories are the in-memory fakes of the test suite, as maps. Only the decision logic of the FastAPI endpoints is modelled.
- The wiring in `backend/app/services/billing.py` and its sandbox payment provider. The provider's seat update is a success-or-failure parameter.
- Concurrency: locks, scheduler threads and the connection scopes are sequential in the model.
- Cryptography, encodings and identifiers. HMAC signing is an uninterpreted function, with only the empty-secret guard modelled. JWTs, `uuid4` and `secrets.token_urlsafe` values are parameters. The notification cursor's base64/JSON text is a datatype of present, decodable or undecodable.
- Date parsing and time zones: instants are integer seconds, and ISO parsing is a parameter.
- Floating point: quota thresholds and the mail backoff are exact `real`s, and the float parser is a parameter.
- FeatureGates.AssertQuota: the error detail's `usage_gb` (the projected usage) and `pending_upload_gb` are rounded to two decimal places by `round(..., 2)` in the source (backend/app/feature_gates/quota.py:90-91); the model carries them unrounded, because float rounding is not modelled. `quota_gb` and `threshold` are passed as given in both.
- Email rendering: `render_email_digest`, `_render_items_text`, `_render_items_html`, the item headline and detail with `textwrap.shorten`, and the templates.
- Logging calls that have no effect on the outcome.
- The provider classes' internals (SMTP, SendGrid, SES sending and rate limiting). Only which provider is built, and with which settings, is modelled.
- `os.environ` is a map argument, and `_ensure_dependencies` in the digest is not modelled.
- The ordering clause of the digest query. Rows arrive in store order; grouping by user and first-seen user order are modelled.
- `create_portal_session` and `list_invoices` are not modelled: each passes straight through to the provider or the repository.
- The direct-message thread listing, `get_thread`, and the "Thread not found" check after an insert: these are SQL reads with no decision logic.
- The group routes `update_group`, `upsert_group_member`, `create_group_invite` and the member, snippet and discussion listings are not modelled as whole routes. Their permission decisions are `GroupService.CanUpdateGroup` and `GroupService.CanManageMembership`; the rest is SQL.
- Text handling is ASCII. `str.lower`, `str.strip` and `str.split` act on ASCII letters and whitespace only, and there is no Unicode case folding.
- EnvSettings.ToInt: Python's `int()` also accepts non-ASCII decimal digits and Unicode whitespace outside the ASCII set; the reader here takes ASCII digits, single underscores between digits and ASCII whitespace only.
- Notifications.ListNotifications: rows are listed in reverse insertion order, which is `ORDER BY created_at DESC, id DESC` only while keys grow with insertion (`Valid`). `CreateNotification` accepts any instant, and `CreateKeepsOrder` keeps `Valid` only for a clock that does not run backwards; a store built with a clock that runs backwards is listed in insertion order, not key order.
- Notifications.ListNotificationsAsWritten: the same insertion-order listing as `ListNotifications`, equal to the key order only on a valid store (`ListNotificationsNewestFirst`).
- Engagement.BadgeChoice: the badge icons at `backend/app/services/engagement.py:58-62` carry the same double encoding as the excerpt marker; icons are not modelled.
- Notifications.UpsertPreferences: the upsert writes every preference column, so a setting the update omits returns to its default rather than keeping its stored value. The model states this behaviour as it is.

## Findings

| source | as written | input that shows it | evidently intended | confidence | as-written member | corrected member |
|---|---|---|---|---|---|---|
| backend/app/services/notifications.py:185-188 | when one row more than the page size comes back, that extra row is popped and the next cursor is built from it; the next query asks for rows strictly older than that key | one user with three notifications, listed with a page size of 1: the first page returns the newest and a cursor at the middle one, and the second page returns the oldest, so the middle notification is never listed | build the cursor from the last row actually returned, so the next page resumes right after it | high (not executed) | Notifications.AsWrittenMissesMiddleNotification | Notifications.CorrectedListsEveryNotification |
| backend/app/services/engagement.py:221 | a cut excerpt ends in the literal "â€¦", the three characters U+00E2 U+20AC U+00A6: the UTF-8 bytes of a horizontal ellipsis read back as Windows-1252 and saved again | any snippet text of fifty-one words: the excerpt is the first fifty words followed by those three characters | end the excerpt with one horizontal ellipsis U+2026 | high (not executed) | Engagement.ExcerptMarkerAsWritten | Engagement.RenderSnippetExcerptCorrected |
