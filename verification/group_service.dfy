/** Reading groups: the accepted privacy states and roles, and the
    permission rules for updating a group and managing its memberships.

    Roles arrive as optional strings (a missing membership or a user
    without a role is None), so the rules are stated over `Option<string>`
    exactly as the Python set-membership tests read them.
 */
module GroupService {
  import opened Common

  const GroupPrivacyValues: set<string> := {"public", "private", "unlisted"}
  const GroupRoleValues: set<string> := {"owner", "moderator", "member"}
  const SiteModeratorRoles: set<string> := {"moderator", "admin"}
  const SiteAdminRoles: set<string> := {"admin"}

  /** `role in S` for an optional role: None is in no set. */
  predicate RoleIn(role: Option<string>, roles: set<string>) {
    role.Some? && role.value in roles
  }

  /** `is_private_group`: the stored privacy state is "private". */
  predicate IsPrivateGroup(privacyState: Option<string>) {
    privacyState == Some("private")
  }

  /** `is_site_moderator`: a site moderator or a site admin. */
  predicate IsSiteModerator(siteRole: Option<string>) {
    RoleIn(siteRole, SiteModeratorRoles)
  }

  /** `is_site_admin`. */
  predicate IsSiteAdmin(siteRole: Option<string>) {
    RoleIn(siteRole, SiteAdminRoles)
  }

  /** Every site admin is a site moderator. */
  lemma {:induction false} AdminIsModerator(siteRole: Option<string>)
    ensures IsSiteAdmin(siteRole) ==> IsSiteModerator(siteRole)
    ensures IsSiteAdmin(siteRole) <==> siteRole == Some("admin")
  {
  }

  /** `can_update_group`: site admins and moderators, and the group's
      owners and moderators. */
  function CanUpdateGroup(actorSiteRole: Option<string>, actorGroupRole: Option<string>): (ok: bool)
    ensures ok <==> actorSiteRole == Some("admin") || actorSiteRole == Some("moderator")
                    || actorGroupRole == Some("owner") || actorGroupRole == Some("moderator")
  {
    if RoleIn(actorSiteRole, SiteAdminRoles) then true
    else if RoleIn(actorSiteRole, SiteModeratorRoles) then true
    else if RoleIn(actorGroupRole, {"owner", "moderator"}) then true
    else false
  }

  /** `_is_actor_group_moderator`: the same test as `can_update_group`. */
  function IsActorGroupModerator(actorSiteRole: Option<string>, actorGroupRole: Option<string>): (ok: bool)
    ensures ok == CanUpdateGroup(actorSiteRole, actorGroupRole)
  {
    if RoleIn(actorSiteRole, SiteAdminRoles) then true
    else if RoleIn(actorSiteRole, SiteModeratorRoles) then true
    else if RoleIn(actorGroupRole, {"owner", "moderator"}) then true
    else false
  }

  /** `can_manage_membership`: site admins and group owners may do
      anything; other actors must be moderators (of the site or of the
      group), and moderators may neither touch an owner nor hand out the
      owner role. */
  function CanManageMembership(actorSiteRole: Option<string>, actorGroupRole: Option<string>,
                               targetGroupRole: Option<string>, desiredRole: Option<string>): (ok: bool)
    ensures actorSiteRole == Some("admin") || actorGroupRole == Some("owner") ==> ok
    ensures !IsActorGroupModerator(actorSiteRole, actorGroupRole) ==> !ok
    ensures actorSiteRole != Some("admin") && actorGroupRole != Some("owner") ==>
              (ok <==> IsActorGroupModerator(actorSiteRole, actorGroupRole)
                       && targetGroupRole != Some("owner") && desiredRole != Some("owner"))
  {
    if RoleIn(actorSiteRole, SiteAdminRoles) then true
    else if actorGroupRole == Some("owner") then true
    else
      var actorIsModerator := IsActorGroupModerator(actorSiteRole, actorGroupRole);
      if !actorIsModerator then false
      else if targetGroupRole == Some("owner") then false
      else if desiredRole == Some("owner") then false
      else true
  }

  /** The rule as one formula: an admin or owner, or a moderator acting on
      no owner and granting no ownership. Plain members and role-less
      users may never manage memberships. */
  lemma {:induction false} ManageMembershipRule(actorSiteRole: Option<string>, actorGroupRole: Option<string>,
                             targetGroupRole: Option<string>, desiredRole: Option<string>)
    ensures CanManageMembership(actorSiteRole, actorGroupRole, targetGroupRole, desiredRole)
            <==> actorSiteRole == Some("admin") || actorGroupRole == Some("owner")
                 || ((actorSiteRole == Some("moderator") || actorGroupRole == Some("moderator"))
                     && targetGroupRole != Some("owner") && desiredRole != Some("owner"))
    ensures actorSiteRole !in {Some("admin"), Some("moderator")} && actorGroupRole in {None, Some("member")}
            ==> !CanManageMembership(actorSiteRole, actorGroupRole, targetGroupRole, desiredRole)
  {
  }

  /** `membership_role_priority`: member 1, moderator 2, owner 3, and 0
      for None or any other string. */
  function RolePriority(role: Option<string>): (p: int)
    ensures 0 <= p <= 3
    ensures p > 0 <==> RoleIn(role, GroupRoleValues)
  {
    if role.None? then 0
    else if role.value == "member" then 1
    else if role.value == "moderator" then 2
    else if role.value == "owner" then 3
    else 0
  }

  /** Priorities order the group roles member < moderator < owner and tell
      them apart. */
  lemma {:induction false} RolePriorityOrder(a: Option<string>, b: Option<string>)
    ensures RolePriority(Some("member")) < RolePriority(Some("moderator")) < RolePriority(Some("owner"))
    ensures RoleIn(a, GroupRoleValues) && RoleIn(b, GroupRoleValues) ==> (RolePriority(a) == RolePriority(b) <==> a == b)
  {
  }
}
