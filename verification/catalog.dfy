/** The static plan and add-on catalog and the role rule for plan bundles. */
module Catalog {
  import opened Common
  import opened EntitlementModels

  /** Admins and owners receive a plan's admin override. */
  predicate IsPrivileged(role: Option<MembershipRole>) {
    role == Some(Admin) || role == Some(Owner)
  }

  datatype PlanDefinition = PlanDefinition(
    key: PlanKey,
    displayName: string,
    billingIntervals: seq<BillingInterval>,
    memberBundle: FeatureBundle,
    adminOverride: Option<FeatureBundle>,
    supportsAddOns: seq<AddOnType>,
    perSeat: bool)
  {
    /** The bundle a member of the given role gets: the member bundle, with
        the admin override merged in for admins and owners when the plan
        has one. No role switches a member-bundle flag off. */
    function BundleForRole(role: Option<MembershipRole>): (b: FeatureBundle)
      ensures !IsPrivileged(role) || adminOverride.None? ==> b == memberBundle
      ensures IsPrivileged(role) && adminOverride.Some? ==> b == memberBundle.Merge(adminOverride.value)
      ensures memberBundle.adsDisabled ==> b.adsDisabled
      ensures memberBundle.syncEnabled ==> b.syncEnabled
      ensures memberBundle.searchAdvanced ==> b.searchAdvanced
      ensures memberBundle.orgAdmin ==> b.orgAdmin
    {
      if IsPrivileged(role) && adminOverride.Some? then memberBundle.Merge(adminOverride.value)
      else memberBundle
    }
  }

  datatype AddOnDefinition = AddOnDefinition(addOnType: AddOnType, storageIncrementGb: int)

  const FreeBundle: FeatureBundle := FeatureBundle(false, false, false, 5, false)
  const IndividualProBundle: FeatureBundle := FeatureBundle(true, true, true, 100, false)
  const TeamMemberBundle: FeatureBundle := FeatureBundle(true, true, true, 100, false)
  /** `FeatureBundle(org_admin=True)`: defaults everywhere else. */
  const TeamAdminOverride: FeatureBundle := DefaultBundle.(orgAdmin := true)

  const PlanCatalog: map<PlanKey, PlanDefinition> := map[
    Free := PlanDefinition(Free, "Free", [Monthly], FreeBundle, None, [], false),
    IndividualPro := PlanDefinition(IndividualPro, "Individual (Pro)", [Monthly, Annual],
                                    IndividualProBundle, None, [Storage100Gb], false),
    Team := PlanDefinition(Team, "Teams", [Monthly, Annual], TeamMemberBundle,
                           Some(TeamAdminOverride), [Storage100Gb], true)]

  const AddOnCatalog: map<AddOnType, AddOnDefinition> := map[
    Storage100Gb := AddOnDefinition(Storage100Gb, 100)]

  /** The catalog entry of a plan. Every plan key has one, so the source's
      KeyError cannot arise; the entry is filed under its own key. */
  function GetPlanDefinition(key: PlanKey): (d: PlanDefinition)
    ensures d.key == key
    ensures d.billingIntervals != []
  {
    assert key == Free || key == IndividualPro || key == Team;
    PlanCatalog[key]
  }

  /** The catalog entry of an add-on, filed under its own type; the
      storage add-on adds 100 GB per unit. */
  function GetAddOnDefinition(addOnType: AddOnType): (d: AddOnDefinition)
    ensures d.addOnType == addOnType
    ensures addOnType == Storage100Gb ==> d.storageIncrementGb == 100
  {
    assert addOnType == Storage100Gb;
    AddOnCatalog[addOnType]
  }

  /** Team admins and owners get org administration on top of the team
      member bundle; plain members and role-less subjects do not. */
  lemma {:induction false} TeamRoleBundles(role: Option<MembershipRole>)
    ensures GetPlanDefinition(Team).BundleForRole(role)
      == TeamMemberBundle.(orgAdmin := IsPrivileged(role))
  {
  }

  /** On the Free and Individual plans the role makes no difference. */
  lemma {:induction false} IndividualPlansIgnoreRole(key: PlanKey, role: Option<MembershipRole>)
    requires key != Team
    ensures GetPlanDefinition(key).BundleForRole(role) == GetPlanDefinition(key).memberBundle
  {
  }

  /** Only the Team plan is billed per seat, and the Free plan supports no
      add-ons. */
  lemma {:induction false} CatalogShape(key: PlanKey)
    ensures GetPlanDefinition(key).perSeat <==> key == Team
    ensures GetPlanDefinition(key).supportsAddOns == [] <==> key == Free
  {
  }
}
