/** Value objects of the entitlement subsystem: plans, feature bundles and
    their flag encoding, subscriptions as the entitlement service sees
    them, the subject an entitlement is computed for (with its cache key
    and invalidation tags), and the computed payload with its token claims.
 */
module EntitlementModels {
  import opened Common
  import Seqs

  datatype PlanKey = Free | IndividualPro | Team {
    /** The enum's string value. */
    function Value(): string {
      match this
      case Free => "free"
      case IndividualPro => "individual_pro"
      case Team => "team"
    }
  }

  /** `PlanKey(text)`: the member whose value is `text`, if any. */
  function ParsePlanKey(text: string): (r: Option<PlanKey>)
    ensures r.Some? ==> r.value.Value() == text
  {
    if text == "free" then Some(Free)
    else if text == "individual_pro" then Some(IndividualPro)
    else if text == "team" then Some(Team)
    else None
  }

  lemma {:induction false} PlanKeyRoundTrip(p: PlanKey)
    ensures ParsePlanKey(p.Value()) == Some(p)
  {
  }

  datatype BillingInterval = Monthly | Annual {
    function Value(): string {
      match this
      case Monthly => "monthly"
      case Annual => "annual"
    }
  }

  function ParseBillingInterval(text: string): (r: Option<BillingInterval>)
    ensures r.Some? ==> r.value.Value() == text
  {
    if text == "monthly" then Some(Monthly)
    else if text == "annual" then Some(Annual)
    else None
  }

  lemma {:induction false} BillingIntervalRoundTrip(b: BillingInterval)
    ensures ParseBillingInterval(b.Value()) == Some(b)
  {
  }

  datatype AddOnType = Storage100Gb

  datatype SubscriptionStatus = Active | Canceled | PastDue {
    function Value(): string {
      match this
      case Active => "active"
      case Canceled => "canceled"
      case PastDue => "past_due"
    }
  }

  function ParseSubscriptionStatus(text: string): (r: Option<SubscriptionStatus>)
    ensures r.Some? ==> r.value.Value() == text
  {
    if text == "active" then Some(Active)
    else if text == "canceled" then Some(Canceled)
    else if text == "past_due" then Some(PastDue)
    else None
  }

  lemma {:induction false} SubscriptionStatusRoundTrip(s: SubscriptionStatus)
    ensures ParseSubscriptionStatus(s.Value()) == Some(s)
  {
  }

  datatype MembershipRole = Owner | Admin | Member {
    function Value(): string {
      match this
      case Owner => "owner"
      case Admin => "admin"
      case Member => "member"
    }
  }

  /** A bundle of feature flags. */
  datatype FeatureBundle = FeatureBundle(
    adsDisabled: bool,
    syncEnabled: bool,
    searchAdvanced: bool,
    storageQuotaGb: int,
    orgAdmin: bool)
  {
    /** Merges `override` into this bundle. A field of `override` wins only
        when it differs from the field's default: the boolean flags (whose
        default is false) end up as the disjunction of both bundles, and an
        override quota of exactly the default 5 GB leaves the base quota. */
    function Merge(override: FeatureBundle): (r: FeatureBundle)
      ensures r.adsDisabled == (adsDisabled || override.adsDisabled)
      ensures r.syncEnabled == (syncEnabled || override.syncEnabled)
      ensures r.searchAdvanced == (searchAdvanced || override.searchAdvanced)
      ensures r.orgAdmin == (orgAdmin || override.orgAdmin)
      ensures override.storageQuotaGb == DefaultQuotaGb ==> r.storageQuotaGb == storageQuotaGb
      ensures override.storageQuotaGb != DefaultQuotaGb ==> r.storageQuotaGb == override.storageQuotaGb
    {
      if override == this then this
      else
        FeatureBundle(
          PickOverride(adsDisabled, override.adsDisabled, DefaultBundle.adsDisabled),
          PickOverride(syncEnabled, override.syncEnabled, DefaultBundle.syncEnabled),
          PickOverride(searchAdvanced, override.searchAdvanced, DefaultBundle.searchAdvanced),
          PickOverride(storageQuotaGb, override.storageQuotaGb, DefaultBundle.storageQuotaGb),
          PickOverride(orgAdmin, override.orgAdmin, DefaultBundle.orgAdmin))
    }

    /** The bundle with `incrementGb` more storage and nothing else changed. */
    function WithAddedStorage(incrementGb: int): (r: FeatureBundle)
      ensures r.storageQuotaGb - storageQuotaGb == incrementGb
      ensures r.(storageQuotaGb := storageQuotaGb) == this
    {
      this.(storageQuotaGb := storageQuotaGb + incrementGb)
    }

    /** The flattened flag map: exactly the five flag keys, each holding
        its field. */
    function ToFlags(): (flags: map<string, FlagValue>)
      ensures flags.Keys == FlagKeys
      ensures flags[AdsDisabledKey] == BoolFlag(adsDisabled)
      ensures flags[SyncEnabledKey] == BoolFlag(syncEnabled)
      ensures flags[SearchAdvancedKey] == BoolFlag(searchAdvanced)
      ensures flags[StorageQuotaKey] == IntFlag(storageQuotaGb)
      ensures flags[OrgAdminKey] == BoolFlag(orgAdmin)
    {
      map[
        AdsDisabledKey := BoolFlag(adsDisabled),
        SyncEnabledKey := BoolFlag(syncEnabled),
        SearchAdvancedKey := BoolFlag(searchAdvanced),
        StorageQuotaKey := IntFlag(storageQuotaGb),
        OrgAdminKey := BoolFlag(orgAdmin)]
    }
  }

  /** The merge rule for one field. */
  function PickOverride<T(==)>(base: T, override: T, default: T): T {
    if override != default then override else base
  }

  const DefaultQuotaGb: int := 5

  /** `FeatureBundle()`: every flag off and 5 GB of storage. */
  const DefaultBundle: FeatureBundle := FeatureBundle(false, false, false, DefaultQuotaGb, false)

  /** Merging the default bundle changes nothing. */
  lemma {:induction false} MergeDefaultRight(b: FeatureBundle)
    ensures b.Merge(DefaultBundle) == b
  {
  }

  /** Merging into the default bundle yields the override. */
  lemma {:induction false} MergeDefaultLeft(o: FeatureBundle)
    ensures DefaultBundle.Merge(o) == o
  {
  }

  /** Merging the same override twice is merging it once. */
  lemma {:induction false} MergeIdempotent(b: FeatureBundle, o: FeatureBundle)
    ensures b.Merge(o).Merge(o) == b.Merge(o)
  {
  }

  /** Merge is associative, so stacking overrides is order-insensitive in
      grouping. */
  lemma {:induction false} MergeAssociative(a: FeatureBundle, b: FeatureBundle, c: FeatureBundle)
    ensures a.Merge(b).Merge(c) == a.Merge(b.Merge(c))
  {
  }

  /** An override can switch a flag on but never off. */
  lemma {:induction false} MergeNeverRevokes(b: FeatureBundle, o: FeatureBundle)
    ensures b.adsDisabled ==> b.Merge(o).adsDisabled
    ensures b.syncEnabled ==> b.Merge(o).syncEnabled
    ensures b.searchAdvanced ==> b.Merge(o).searchAdvanced
    ensures b.orgAdmin ==> b.Merge(o).orgAdmin
  {
  }

  lemma {:induction false} AddedStorageComposes(b: FeatureBundle, m: int, n: int)
    ensures b.WithAddedStorage(m).WithAddedStorage(n) == b.WithAddedStorage(m + n)
  {
  }

  /** The value of a flag: a bool or an int, as the flag map holds. */
  datatype FlagValue = BoolFlag(b: bool) | IntFlag(i: int)

  /** Python `bool(value)`. */
  predicate FlagTruthy(v: FlagValue) {
    match v
    case BoolFlag(b) => b
    case IntFlag(i) => i != 0
  }

  /** Python `int(value)` (a bool converts to 0 or 1). */
  function FlagAsInt(v: FlagValue): int {
    match v
    case BoolFlag(b) => if b then 1 else 0
    case IntFlag(i) => i
  }

  const AdsDisabledKey: string := "ads.disabled"
  const SyncEnabledKey: string := "sync.enabled"
  const SearchAdvancedKey: string := "search.advanced"
  const StorageQuotaKey: string := "storage.quota_gb"
  const OrgAdminKey: string := "org.admin"
  const FlagKeys: set<string> := {AdsDisabledKey, SyncEnabledKey, SearchAdvancedKey, StorageQuotaKey, OrgAdminKey}

  /** Every boolean field of a bundle reads back, through Python
      truthiness, from its flag. */
  lemma {:induction false} FlagsReadBack(b: FeatureBundle)
    ensures FlagTruthy(b.ToFlags()[AdsDisabledKey]) == b.adsDisabled
    ensures FlagTruthy(b.ToFlags()[SyncEnabledKey]) == b.syncEnabled
    ensures FlagTruthy(b.ToFlags()[SearchAdvancedKey]) == b.searchAdvanced
    ensures FlagTruthy(b.ToFlags()[OrgAdminKey]) == b.orgAdmin
    ensures FlagAsInt(b.ToFlags()[StorageQuotaKey]) == b.storageQuotaGb
  {
  }

  /** A provisioned add-on and how many units of it. */
  datatype AddOnGrant = AddOnGrant(addOnType: AddOnType, quantity: int)

  /** `AddOnGrant(type=..., quantity=...)` with its validator. */
  function NewAddOnGrant(addOnType: AddOnType, quantity: int): (r: Result<AddOnGrant>)
    ensures r.Ok? <==> quantity >= 1
    ensures r.Ok? ==> r.value.quantity == quantity && r.value.addOnType == addOnType
    ensures r.Err? ==> r.error == ValueError
  {
    if quantity < 1 then Err(ValueError) else Ok(AddOnGrant(addOnType, quantity))
  }

  /** A subscription as the entitlement service reads it. */
  datatype SubscriptionRecord = SubscriptionRecord(
    id: string,
    planKey: PlanKey,
    status: SubscriptionStatus,
    billingInterval: BillingInterval,
    addOns: seq<AddOnGrant>)
  {
    predicate IsActive() {
      status == Active
    }
  }

  /** A user's seat in an organization, as the entitlement service reads it. */
  datatype EntitlementMembership = EntitlementMembership(
    organizationId: string,
    userId: string,
    role: MembershipRole,
    seatConsumed: bool)

  /** `OrganizationMembership(organization_id=..., user_id=...)` with its
      defaults: an ordinary member consuming a seat. */
  function NewEntitlementMembership(organizationId: string, userId: string): (m: EntitlementMembership)
    ensures m.role == Member && m.seatConsumed
    ensures m.organizationId == organizationId && m.userId == userId
  {
    EntitlementMembership(organizationId, userId, Member, true)
  }

  function UserTag(userId: string): string {
    "user:" + userId
  }

  function OrganizationTag(organizationId: string): string {
    "organization:" + organizationId
  }

  function SubscriptionTag(subscriptionId: string): string {
    "subscription:" + subscriptionId
  }

  /** Tags of different kinds never coincide: they differ in their first
      letter. */
  lemma {:induction false} TagKindsDisjoint(a: string, b: string)
    ensures UserTag(a) != OrganizationTag(b)
    ensures UserTag(a) != SubscriptionTag(b)
    ensures OrganizationTag(a) != SubscriptionTag(b)
  {
    assert UserTag(a)[0] == 'u';
    assert OrganizationTag(b)[0] == 'o';
    assert SubscriptionTag(b)[0] == 's';
    assert OrganizationTag(a)[0] == 'o';
  }

  /** Tags of one kind coincide only for equal identifiers. */
  lemma {:induction false} TagsInjective(a: string, b: string)
    ensures UserTag(a) == UserTag(b) ==> a == b
    ensures OrganizationTag(a) == OrganizationTag(b) ==> a == b
    ensures SubscriptionTag(a) == SubscriptionTag(b) ==> a == b
  {
    if UserTag(a) == UserTag(b) {
      assert a == UserTag(a)[5..];
      assert b == UserTag(b)[5..];
    }
    if OrganizationTag(a) == OrganizationTag(b) {
      assert a == OrganizationTag(a)[13..];
      assert b == OrganizationTag(b)[13..];
    }
    if SubscriptionTag(a) == SubscriptionTag(b) {
      assert a == SubscriptionTag(a)[13..];
      assert b == SubscriptionTag(b)[13..];
    }
  }

  /** Who entitlements are computed for: a user, optionally acting within
      an organization. */
  datatype EntitlementSubject = EntitlementSubject(userId: string, organizationId: Option<string>) {

    /** The cache key: the user component, then the organization component
        ("self" when the id is missing or empty), then the subscription
        component ("none" when the id is missing or empty). */
    function CacheKey(subscriptionId: Option<string>): (key: string)
      ensures |key| >= 5 + |userId| && key[..5 + |userId|] == "user:" + userId
      ensures var org := "|org:" + OrganizationComponent(organizationId);
        |key| >= 5 + |userId| + |org| && key[5 + |userId|..5 + |userId| + |org|] == org
      ensures |key| >= |SubscriptionComponent(subscriptionId)| + 5
        && key[|key| - |SubscriptionComponent(subscriptionId)| - 5..] == "|sub:" + SubscriptionComponent(subscriptionId)
    {
      "user:" + userId + "|org:" + OrganizationComponent(organizationId) + "|sub:" + SubscriptionComponent(subscriptionId)
    }

    /** Invalidation tags: always the user's, plus the organization's and
        the subscription's when those identifiers are non-empty. */
    function Tags(subscriptionId: Option<string>): (tags: set<string>)
      ensures UserTag(userId) in tags
      ensures forall t :: t in tags ==>
                (t == UserTag(userId)
                 || (Truthy(organizationId) && t == OrganizationTag(organizationId.value))
                 || (Truthy(subscriptionId) && t == SubscriptionTag(subscriptionId.value)))
    {
      {UserTag(userId)}
      + (if Truthy(organizationId) then {OrganizationTag(organizationId.value)} else {})
      + (if Truthy(subscriptionId) then {SubscriptionTag(subscriptionId.value)} else {})
    }
  }

  /** The organization component of a cache key. */
  function OrganizationComponent(organizationId: Option<string>): string {
    if Truthy(organizationId) then organizationId.value else "self"
  }

  function SubscriptionComponent(subscriptionId: Option<string>): string {
    if Truthy(subscriptionId) then subscriptionId.value else "none"
  }

  /** The subject's tags name an organization or a subscription exactly
      when the subject or the lookup carries that non-empty identifier. */
  lemma {:induction false} TagsExact(subject: EntitlementSubject, subscriptionId: Option<string>, id: string)
    ensures OrganizationTag(id) in subject.Tags(subscriptionId)
      <==> Truthy(subject.organizationId) && subject.organizationId.value == id
    ensures SubscriptionTag(id) in subject.Tags(subscriptionId)
      <==> Truthy(subscriptionId) && subscriptionId.value == id
    ensures UserTag(id) in subject.Tags(subscriptionId) <==> subject.userId == id
  {
    TagKindsDisjoint(subject.userId, id);
    TagKindsDisjoint(id, subject.userId);
    TagsInjective(subject.userId, id);
    if Truthy(subject.organizationId) {
      TagKindsDisjoint(id, subject.organizationId.value);
      TagKindsDisjoint(subject.organizationId.value, id);
      TagsInjective(subject.organizationId.value, id);
    }
    if Truthy(subscriptionId) {
      TagKindsDisjoint(id, subscriptionId.value);
      TagKindsDisjoint(subscriptionId.value, id);
      TagsInjective(subscriptionId.value, id);
    }
  }

  /** Lookups under two different non-empty subscription ids use different
      cache keys. */
  lemma {:induction false} CacheKeySeparatesSubscriptions(subject: EntitlementSubject, a: string, b: string)
    requires a != "" && b != "" && a != b
    ensures subject.CacheKey(Some(a)) != subject.CacheKey(Some(b))
  {
    var prefix := "user:" + subject.userId + "|org:" + OrganizationComponent(subject.organizationId) + "|sub:";
    assert subject.CacheKey(Some(a)) == prefix + a;
    assert subject.CacheKey(Some(b)) == prefix + b;
    Seqs.PrefixCancel(prefix, a, b);
  }

  /** For one user and one subscription, subjects whose organization
      components differ get different cache keys; in particular a personal
      subject never shares a key with a subject acting in an organization
      (other than one whose id is the text "self"). */
  lemma {:induction false} CacheKeySeparatesOrganizations(userId: string, a: Option<string>, b: Option<string>,
                                                          subscriptionId: Option<string>)
    requires OrganizationComponent(a) != OrganizationComponent(b)
    ensures EntitlementSubject(userId, a).CacheKey(subscriptionId) != EntitlementSubject(userId, b).CacheKey(subscriptionId)
  {
    var ka := EntitlementSubject(userId, a).CacheKey(subscriptionId);
    var kb := EntitlementSubject(userId, b).CacheKey(subscriptionId);
    var oa := "|org:" + OrganizationComponent(a);
    var ob := "|org:" + OrganizationComponent(b);
    if ka == kb && |oa| == |ob| {
      assert oa == ka[5 + |userId|..5 + |userId| + |oa|] == ob;
      Seqs.PrefixCancel("|org:", OrganizationComponent(a), OrganizationComponent(b));
    }
  }

  /** A value placed in the token claims. */
  datatype Claim = ClaimText(text: string) | ClaimFlags(flags: map<string, FlagValue>) | ClaimTime(at: int)

  /** The computed entitlements of a subject. */
  datatype EntitlementPayload = EntitlementPayload(
    plan: PlanKey,
    featureFlags: map<string, FlagValue>,
    subscriptionId: Option<string>,
    organizationId: Option<string>,
    role: Option<MembershipRole>,
    generatedAt: int)
  {
    /** The storage quota the flags grant, 0 when the flag is absent. */
    function StorageQuotaGb(): (q: int)
      ensures StorageQuotaKey !in featureFlags ==> q == 0
      ensures StorageQuotaKey in featureFlags && featureFlags[StorageQuotaKey].IntFlag?
        ==> q == featureFlags[StorageQuotaKey].i
      ensures StorageQuotaKey in featureFlags && featureFlags[StorageQuotaKey].BoolFlag?
        ==> q == (if featureFlags[StorageQuotaKey].b then 1 else 0)
    {
      if StorageQuotaKey in featureFlags then FlagAsInt(featureFlags[StorageQuotaKey]) else 0
    }

    /** The token claims: plan, flags and both instants always; the
        organization, role and subscription only when present and non-empty. */
    function ToClaims(expiresAt: int): (claims: map<string, Claim>)
      ensures "plan" in claims && claims["plan"] == ClaimText(plan.Value())
      ensures "feature_flags" in claims && claims["feature_flags"] == ClaimFlags(featureFlags)
      ensures "generated_at" in claims && claims["generated_at"] == ClaimTime(generatedAt)
      ensures "expires_at" in claims && claims["expires_at"] == ClaimTime(expiresAt)
      ensures "organization_id" in claims <==> Truthy(organizationId)
      ensures "organization_id" in claims ==> claims["organization_id"] == ClaimText(organizationId.value)
      ensures "role" in claims <==> role.Some?
      ensures "role" in claims ==> claims["role"] == ClaimText(role.value.Value())
      ensures "subscription_id" in claims <==> Truthy(subscriptionId)
      ensures "subscription_id" in claims ==> claims["subscription_id"] == ClaimText(subscriptionId.value)
      ensures claims.Keys <= {"plan", "feature_flags", "generated_at", "expires_at", "organization_id", "role", "subscription_id"}
    {
      var base := map[
        "plan" := ClaimText(plan.Value()),
        "feature_flags" := ClaimFlags(featureFlags),
        "generated_at" := ClaimTime(generatedAt),
        "expires_at" := ClaimTime(expiresAt)];
      var withOrg := if Truthy(organizationId) then base["organization_id" := ClaimText(organizationId.value)] else base;
      var withRole := if role.Some? then withOrg["role" := ClaimText(role.value.Value())] else withOrg;
      if Truthy(subscriptionId) then withRole["subscription_id" := ClaimText(subscriptionId.value)] else withRole
    }
  }

  /** The plan named in the claims reads back as the payload's plan. */
  lemma {:induction false} ClaimsPlanReadsBack(p: EntitlementPayload, expiresAt: int)
    ensures ParsePlanKey(p.ToClaims(expiresAt)["plan"].text) == Some(p.plan)
  {
    PlanKeyRoundTrip(p.plan);
  }

  /** What the service returns: the payload, its signed token and expiry. */
  datatype EntitlementResult = EntitlementResult(payload: EntitlementPayload, token: string, expiresAt: int)
}
