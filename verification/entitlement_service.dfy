/** The entitlement service: resolves a subject's active subscription and
    organization role, computes its feature bundle (plan, role override,
    add-ons), signs the payload and caches the result under the subject's
    cache key and tags.

    Collaborators: the subscription and membership repositories are maps;
    the token signer is the function `sign` (HMAC signing itself is not
    modelled); the injected clock is `clock` and the cache's wall clock is
    `wallNow`.
 */
module Entitlements {
  import opened Common
  import opened EntitlementModels
  import opened Catalog
  import opened EntitlementCache

  /** The HMAC signer keeps only its secret here. */
  datatype HmacSigner = HmacSigner(secret: string)

  /** `HMACTokenSigner(secret)`: an empty secret is refused. */
  function NewHmacSigner(secret: string): (r: Result<HmacSigner>)
    ensures r.Ok? <==> secret != ""
    ensures r.Ok? ==> r.value.secret == secret
    ensures r.Err? ==> r.error == ValueError
  {
    if secret == "" then Err(ValueError) else Ok(HmacSigner(secret))
  }

  const DefaultTtlSeconds: int := 300
  const MinTtlSeconds: int := 60

  /** The service's configuration: the cache lifetime of a result. */
  datatype ServiceConfig = ServiceConfig(ttlSeconds: int)

  /** `EntitlementService(..., ttl_seconds=...)`: lifetimes below a minute
      are raised to a minute. */
  function NewService(ttlSeconds: int): (c: ServiceConfig)
    ensures c.ttlSeconds >= MinTtlSeconds
    ensures c.ttlSeconds >= ttlSeconds
    ensures ttlSeconds >= MinTtlSeconds ==> c.ttlSeconds == ttlSeconds
  {
    ServiceConfig(if ttlSeconds > MinTtlSeconds then ttlSeconds else MinTtlSeconds)
  }

  /** The repositories the service reads: subscriptions by id, and
      memberships by (user id, organization id). */
  datatype Repositories = Repositories(
    subscriptions: map<string, SubscriptionRecord>,
    memberships: map<(string, string), EntitlementMembership>)

  /** The subscription that drives entitlements: only an active
      subscription stored under a non-empty id counts. */
  function ResolveSubscription(repos: Repositories, subscriptionId: Option<string>): (r: Option<SubscriptionRecord>)
    ensures r.Some? <==> Truthy(subscriptionId) && subscriptionId.value in repos.subscriptions
                          && repos.subscriptions[subscriptionId.value].IsActive()
    ensures r.Some? ==> r.value == repos.subscriptions[subscriptionId.value]
  {
    if !Truthy(subscriptionId) then None
    else if subscriptionId.value !in repos.subscriptions then None
    else
      var s := repos.subscriptions[subscriptionId.value];
      if !s.IsActive() then None else Some(s)
  }

  /** Total units granted across a sequence of add-on grants. */
  function TotalQuantity(grants: seq<AddOnGrant>): int {
    if |grants| == 0 then 0 else TotalQuantity(grants[..|grants| - 1]) + grants[|grants| - 1].quantity
  }

  /** The storage the supported grants add, summed grant by grant in order:
      every grant of a supported type adds its definition's increment times
      its quantity. With storage as the only add-on, that is 100 GB per
      unit when the plan supports it and nothing otherwise. */
  function SupportedIncrement(supported: seq<AddOnType>, grants: seq<AddOnGrant>): (total: int)
    ensures total == if Storage100Gb in supported then 100 * TotalQuantity(grants) else 0
  {
    if |grants| == 0 then 0
    else
      var g := grants[|grants| - 1];
      var step := if g.addOnType in supported then GetAddOnDefinition(g.addOnType).storageIncrementGb * g.quantity else 0;
      assert g.addOnType == Storage100Gb;
      assert TotalQuantity(grants) == TotalQuantity(grants[..|grants| - 1]) + g.quantity;
      SupportedIncrement(supported, grants[..|grants| - 1]) + step
  }

  /** `_apply_add_ons`: a plan without supported add-ons keeps its bundle;
      otherwise exactly the supported increment is added to the quota. */
  function ApplyAddOns(bundle: FeatureBundle, supported: seq<AddOnType>, grants: seq<AddOnGrant>): (r: FeatureBundle)
    ensures r == bundle.WithAddedStorage(if supported == [] then 0 else SupportedIncrement(supported, grants))
  {
    if supported == [] then bundle
    else
      var total := SupportedIncrement(supported, grants);
      if total != 0 then bundle.WithAddedStorage(total) else bundle
  }

  /** The bundle a subject ends up with: the plan's bundle for the role
      plus the add-on storage (no subscription means the Free plan and no
      add-ons). */
  function EffectiveBundle(subscription: Option<SubscriptionRecord>, role: Option<MembershipRole>): FeatureBundle {
    var planKey := if subscription.None? then Free else subscription.value.planKey;
    var addOns := if subscription.None? then [] else subscription.value.addOns;
    var definition := GetPlanDefinition(planKey);
    var bundle := definition.BundleForRole(role);
    if addOns != [] then ApplyAddOns(bundle, definition.supportsAddOns, addOns) else bundle
  }

  /** `_compute_payload`: the payload names the plan (Free without a
      subscription), the subscription id when there is one, the subject's
      organization and the role; its flags encode the effective bundle,
      whose quota is the role bundle's plus the add-on storage. */
  function ComputePayload(subject: EntitlementSubject, subscription: Option<SubscriptionRecord>,
                          role: Option<MembershipRole>, generatedAt: int): (p: EntitlementPayload)
    ensures p.plan == if subscription.None? then Free else subscription.value.planKey
    ensures p.featureFlags == EffectiveBundle(subscription, role).ToFlags()
    ensures p.StorageQuotaGb() == GetPlanDefinition(p.plan).BundleForRole(role).storageQuotaGb
      + (if subscription.None? then 0 else SupportedIncrement(GetPlanDefinition(p.plan).supportsAddOns, subscription.value.addOns))
    ensures p.subscriptionId == if subscription.None? then None else Some(subscription.value.id)
    ensures p.organizationId == subject.organizationId && p.role == role && p.generatedAt == generatedAt
  {
    var planKey := if subscription.None? then Free else subscription.value.planKey;
    var definition := GetPlanDefinition(planKey);
    var bundle := EffectiveBundle(subscription, role);
    EntitlementPayload(
      definition.key,
      bundle.ToFlags(),
      if subscription.Some? then Some(subscription.value.id) else None,
      subject.organizationId,
      role,
      generatedAt)
  }

  /** A call's outcome and the cache it leaves behind (a failing call can
      still have evicted an expired entry). */
  datatype Outcome = Outcome(result: Result<EntitlementResult>, cache: Cache<EntitlementResult>)

  /** The role a subject holds: none outside an organization; inside one,
      the stored membership's role, and LookupError without a membership. */
  function ResolveRole(repos: Repositories, subject: EntitlementSubject): (r: Result<Option<MembershipRole>>)
    ensures !Truthy(subject.organizationId) ==> r == Ok(None)
    ensures Truthy(subject.organizationId) ==>
              var k := (subject.userId, subject.organizationId.value);
              (r.Ok? <==> k in repos.memberships) && (r.Ok? ==> r.value == Some(repos.memberships[k].role))
    ensures r.Err? ==> r.error == LookupError
  {
    if !Truthy(subject.organizationId) then Ok(None)
    else
      var k := (subject.userId, subject.organizationId.value);
      if k !in repos.memberships then Err(LookupError) else Ok(Some(repos.memberships[k].role))
  }

  /** A freshly computed result, ignoring the cache. */
  function Compute(config: ServiceConfig, repos: Repositories, subject: EntitlementSubject,
                   subscriptionId: Option<string>, sign: map<string, Claim> -> string,
                   clock: int, wallNow: int): (r: Result<EntitlementResult>)
    ensures r.Ok? <==> ResolveRole(repos, subject).Ok?
    ensures r.Ok? ==> r.value.expiresAt == clock + config.ttlSeconds
    ensures r.Ok? ==> r.value.payload == ComputePayload(subject, ResolveSubscription(repos, subscriptionId),
                                                          ResolveRole(repos, subject).value, wallNow)
    ensures r.Ok? ==> r.value.token == sign(r.value.payload.ToClaims(r.value.expiresAt))
    ensures r.Err? ==> r.error == LookupError
  {
    var subscription := ResolveSubscription(repos, subscriptionId);
    var role :- ResolveRole(repos, subject);
    var payload := ComputePayload(subject, subscription, role, wallNow);
    var expiresAt := clock + config.ttlSeconds;
    var token := sign(payload.ToClaims(expiresAt));
    Ok(EntitlementResult(payload, token, expiresAt))
  }

  /** `get_entitlements(subject, subscription_id)`: a live cached result
      is returned untouched; otherwise the result is computed afresh and
      cached under the subject's key and tags until it expires. A missing
      organization membership raises LookupError and caches nothing. */
  function GetEntitlements(config: ServiceConfig, repos: Repositories, cache: Cache<EntitlementResult>,
                           subject: EntitlementSubject, subscriptionId: Option<string>,
                           sign: map<string, Claim> -> string, clock: int, wallNow: int): (o: Outcome)
    ensures var key := subject.CacheKey(subscriptionId);
            key in cache.entries && !cache.entries[key].IsExpired(wallNow)
            ==> o == Outcome(Ok(cache.entries[key].value), cache)
    ensures var key := subject.CacheKey(subscriptionId);
            !(key in cache.entries && !cache.entries[key].IsExpired(wallNow))
            ==> o.result == Compute(config, repos, subject, subscriptionId, sign, clock, wallNow)
    ensures var key := subject.CacheKey(subscriptionId);
            o.result.Ok? && o.result.value.expiresAt > wallNow
            ==> key in o.cache.entries && o.cache.entries[key].value == o.result.value
    ensures var key := subject.CacheKey(subscriptionId);
            o.result.Err? ==> key !in o.cache.entries && o.cache.entries.Keys <= cache.entries.Keys
    ensures forall k :: k in o.cache.entries && k != subject.CacheKey(subscriptionId) ==>
              k in cache.entries && o.cache.entries[k] == cache.entries[k]
    ensures ConsistentExpiry(cache) ==> ConsistentExpiry(o.cache)
  {
    var key := subject.CacheKey(subscriptionId);
    var lookup := Get(cache, key, wallNow);
    if lookup.value.Some? then Outcome(Ok(lookup.value.value), lookup.cache)
    else
      match Compute(config, repos, subject, subscriptionId, sign, clock, wallNow)
      case Err(e) => Outcome(Err(e), lookup.cache)
      case Ok(result) =>
        Outcome(Ok(result), Set(lookup.cache, key, result, result.expiresAt, subject.Tags(subscriptionId), wallNow))
  }

  /** Every cached result expires together with its cache entry. */
  predicate ConsistentExpiry(cache: Cache<EntitlementResult>) {
    forall k :: k in cache.entries ==> cache.entries[k].expiresAt == cache.entries[k].value.expiresAt
  }

  /** The cache entry a successful computation stores carries the subject's
      tags. */
  lemma {:induction false} StoredEntryTagged(config: ServiceConfig, repos: Repositories, cache: Cache<EntitlementResult>,
                          subject: EntitlementSubject, subscriptionId: Option<string>,
                          sign: map<string, Claim> -> string, clock: int, wallNow: int)
    requires var key := subject.CacheKey(subscriptionId);
             !(key in cache.entries && !cache.entries[key].IsExpired(wallNow))
    requires GetEntitlements(config, repos, cache, subject, subscriptionId, sign, clock, wallNow).result.Ok?
    requires clock + config.ttlSeconds > wallNow
    ensures var o := GetEntitlements(config, repos, cache, subject, subscriptionId, sign, clock, wallNow);
            o.cache.entries[subject.CacheKey(subscriptionId)]
              == Entry(o.result.value, clock + config.ttlSeconds, subject.Tags(subscriptionId))
  {
  }

  /** Two lookups before the first result expires (and with no
      invalidation in between) return the same result. */
  lemma {:induction false} RepeatedLookupsAgree(config: ServiceConfig, repos: Repositories, repos2: Repositories,
                             cache: Cache<EntitlementResult>, subject: EntitlementSubject,
                             subscriptionId: Option<string>, sign: map<string, Claim> -> string,
                             clock: int, wallNow: int, clock2: int, wallNow2: int)
    requires ConsistentExpiry(cache)
    requires var o := GetEntitlements(config, repos, cache, subject, subscriptionId, sign, clock, wallNow);
             o.result.Ok? && wallNow < o.result.value.expiresAt && wallNow2 < o.result.value.expiresAt
    ensures var o := GetEntitlements(config, repos, cache, subject, subscriptionId, sign, clock, wallNow);
            var o2 := GetEntitlements(config, repos2, o.cache, subject, subscriptionId, sign, clock2, wallNow2);
            o2.result == o.result && o2.cache == o.cache
  {
    var key := subject.CacheKey(subscriptionId);
    var o := GetEntitlements(config, repos, cache, subject, subscriptionId, sign, clock, wallNow);
    assert key in o.cache.entries && o.cache.entries[key].value == o.result.value;
    if key in cache.entries && !cache.entries[key].IsExpired(wallNow) {
      assert o.cache == cache;
    } else {
      assert o.cache.entries[key].expiresAt == o.result.value.expiresAt;
    }
  }

  /** `invalidate_user`, `invalidate_subscription`, `invalidate_organization`. */
  datatype Invalidation =
    | InvalidateUser(userId: string)
    | InvalidateSubscription(subscriptionId: string)
    | InvalidateOrganization(organizationId: string)
  {
    function Tag(): string {
      match this
      case InvalidateUser(id) => UserTag(id)
      case InvalidateSubscription(id) => SubscriptionTag(id)
      case InvalidateOrganization(id) => OrganizationTag(id)
    }
  }

  /** Carries out one invalidation call on the cache. */
  function ApplyInvalidation(cache: Cache<EntitlementResult>, call: Invalidation): (r: Cache<EntitlementResult>)
    ensures forall k :: k in r.entries <==> k in cache.entries && call.Tag() !in cache.entries[k].tags
    ensures forall k :: k in r.entries ==> r.entries[k] == cache.entries[k]
  {
    Invalidate(cache, {call.Tag()})
  }

  /** Carries out a trace of invalidation calls in order. */
  function ApplyInvalidations(cache: Cache<EntitlementResult>, calls: seq<Invalidation>): (r: Cache<EntitlementResult>)
    ensures forall k :: k in r.entries <==>
              k in cache.entries && forall i :: 0 <= i < |calls| ==> calls[i].Tag() !in cache.entries[k].tags
    ensures forall k :: k in r.entries ==> r.entries[k] == cache.entries[k]
  {
    if |calls| == 0 then cache
    else ApplyInvalidation(ApplyInvalidations(cache, calls[..|calls| - 1]), calls[|calls| - 1])
  }

  /** After a subscription is invalidated, a lookup under that subscription
      answers as if the cache were cold: the next call recomputes. */
  lemma {:induction false} InvalidationForcesRecompute(config: ServiceConfig, repos: Repositories, cache: Cache<EntitlementResult>,
                                    subject: EntitlementSubject, subscriptionId: string,
                                    sign: map<string, Claim> -> string, clock: int, wallNow: int,
                                    repos2: Repositories, clock2: int, wallNow2: int)
    requires subscriptionId != ""
    requires var o := GetEntitlements(config, repos, cache, subject, Some(subscriptionId), sign, clock, wallNow);
             o.result.Ok? && !(subject.CacheKey(Some(subscriptionId)) in cache.entries
                               && !cache.entries[subject.CacheKey(Some(subscriptionId))].IsExpired(wallNow))
    ensures var o := GetEntitlements(config, repos, cache, subject, Some(subscriptionId), sign, clock, wallNow);
            var c := ApplyInvalidation(o.cache, InvalidateSubscription(subscriptionId));
            GetEntitlements(config, repos2, c, subject, Some(subscriptionId), sign, clock2, wallNow2).result
              == Compute(config, repos2, subject, Some(subscriptionId), sign, clock2, wallNow2)
  {
    var key := subject.CacheKey(Some(subscriptionId));
    var o := GetEntitlements(config, repos, cache, subject, Some(subscriptionId), sign, clock, wallNow);
    TagsExact(subject, Some(subscriptionId), subscriptionId);
    if key in o.cache.entries {
      assert o.cache.entries[key].tags == subject.Tags(Some(subscriptionId));
    }
  }

  /** The Individual (Pro) plan grants every paid flag and 100 GB plus
      100 GB per storage unit granted. */
  lemma {:induction false} IndividualProEntitlements(subject: EntitlementSubject, s: SubscriptionRecord, role: Option<MembershipRole>, at: int)
    requires s.planKey == IndividualPro
    ensures var p := ComputePayload(subject, Some(s), role, at);
            p.StorageQuotaGb() == 100 + 100 * TotalQuantity(s.addOns)
            && p.featureFlags[AdsDisabledKey] == BoolFlag(true)
            && p.featureFlags[SyncEnabledKey] == BoolFlag(true)
            && p.featureFlags[SearchAdvancedKey] == BoolFlag(true)
            && p.featureFlags[OrgAdminKey] == BoolFlag(false)
  {
  }

  /** A Team subscription viewed by an organization admin or owner carries
      org administration; a plain member's does not. */
  lemma {:induction false} TeamAdminFlag(subject: EntitlementSubject, s: SubscriptionRecord, role: Option<MembershipRole>, at: int)
    requires s.planKey == Team
    ensures ComputePayload(subject, Some(s), role, at).featureFlags[OrgAdminKey] == BoolFlag(IsPrivileged(role))
  {
    TeamRoleBundles(role);
  }

  /** Without an active subscription a subject gets the Free plan. */
  lemma {:induction false} NoSubscriptionIsFree(subject: EntitlementSubject, role: Option<MembershipRole>, at: int)
    ensures var p := ComputePayload(subject, None, role, at);
            p.plan == Free && p.StorageQuotaGb() == 5 && p.subscriptionId == None
            && p.featureFlags[AdsDisabledKey] == BoolFlag(false)
  {
  }
}
