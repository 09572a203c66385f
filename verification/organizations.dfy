/** The organization service: invitations, acceptance, removal and role
    changes, over a repository that behaves like the in-memory one the
    service is exercised with.

    Every operation is a function from a state to a `Step`: the result the
    Python method returns or the exception class it raises, and the state
    afterwards. The repository is a set of maps; the audit logger, the seat
    event publisher and the entitlement invalidator are append-only traces.
    The clock is the `now` argument and the invitation token generator is a
    function in the configuration.
 */
module Organizations {
  import opened Common
  import opened Text
  import opened EntitlementModels
  import opened OrganizationModels
  import Entitlements
  import EntitlementCache

  // ---------------------------------------------------------------------
  // Role hierarchy

  /** `ROLE_HIERARCHY`: member 1, admin 2, owner 3. */
  function Rank(role: MembershipRole): (n: int)
    ensures 1 <= n <= 3
  {
    match role
    case Member => 1
    case Admin => 2
    case Owner => 3
  }

  /** `_role_allows_assignment`: an actor may hand out roles up to its own. */
  predicate RoleAllowsAssignment(actor: MembershipRole, target: MembershipRole) {
    Rank(actor) >= Rank(target)
  }

  /** The assignment rule spelled out role by role: owners may assign any
      role, anyone may assign the member role, and an admin may also assign
      admin. Ranks are distinct, so the hierarchy is a total order. */
  lemma {:induction false} AssignmentRule(actor: MembershipRole, target: MembershipRole)
    ensures RoleAllowsAssignment(actor, target) <==> actor == Owner || target == Member || actor == target
    ensures Rank(actor) == Rank(target) <==> actor == target
  {
  }

  // ---------------------------------------------------------------------
  // State

  /** Invitation lifetime when none is given: seven days, in seconds. */
  const DefaultInvitationTtl: int := 7 * 86400

  /** `generate(organization_id, email, expires_at)` gives the token. */
  datatype OrgConfig = OrgConfig(invitationTtl: int, generate: (string, string, int) -> string)

  datatype OrgState = OrgState(
    organizations: map<string, Organization>,
    memberships: map<(string, string), Membership>,
    invitations: map<string, Invitation>,
    audit: seq<MembershipAuditEvent>,
    seatEvents: seq<string>,
    invalidations: seq<Entitlements.Invalidation>)

  /** The outcome of one service call and the state after it. */
  datatype Step<T> = Step(result: Result<T>, state: OrgState)

  /** What the repository keeps true: organizations are filed under their
      id, memberships under (organization, user) and carry an id, and
      invitations are filed under their token and valid. */
  predicate Wellformed(st: OrgState) {
    (forall o :: o in st.organizations ==> st.organizations[o].id == o)
    && (forall k :: k in st.memberships ==>
          st.memberships[k].organizationId == k.0 && st.memberships[k].userId == k.1
          && st.memberships[k].id.Some?)
    && (forall t :: t in st.invitations ==> st.invitations[t].token == t && st.invitations[t].Valid())
  }

  // ---------------------------------------------------------------------
  // Repository and collaborator effects

  /** The id the repository gives a membership saved without one. */
  function NextMembershipId(st: OrgState): string {
    "m-" + NatToString(|st.memberships| + 1)
  }

  /** The membership as `save_membership` stores it: an id is assigned
      only when the membership has none. */
  function WithId(st: OrgState, m: Membership): (stored: Membership)
    ensures stored.id.Some?
    ensures m.id.Some? ==> stored == m
    ensures stored == m.(id := stored.id)
  {
    if m.id.None? then m.(id := Some(NextMembershipId(st))) else m
  }

  /** `save_membership`: files the membership under (organization, user). */
  function SaveMembership(st: OrgState, m: Membership): (r: OrgState)
    ensures r.memberships == st.memberships[(m.organizationId, m.userId) := WithId(st, m)]
    ensures r.organizations == st.organizations && r.invitations == st.invitations
    ensures r.audit == st.audit && r.seatEvents == st.seatEvents && r.invalidations == st.invalidations
  {
    st.(memberships := st.memberships[(m.organizationId, m.userId) := WithId(st, m)])
  }

  /** `_require_membership`: LookupError when there is no membership. */
  function RequireMembership(st: OrgState, organizationId: string, userId: string): (r: Result<Membership>)
    ensures r.Ok? <==> (organizationId, userId) in st.memberships
    ensures r.Ok? ==> r.value == st.memberships[(organizationId, userId)]
    ensures r.Err? ==> r.error == LookupError
  {
    if (organizationId, userId) in st.memberships then Ok(st.memberships[(organizationId, userId)])
    else Err(LookupError)
  }

  /** `_require_active_membership`: LookupError when there is no
      membership, PermissionError when it is not active. */
  function RequireActiveMembership(st: OrgState, organizationId: string, userId: string): (r: Result<Membership>)
    ensures r.Ok? <==> (organizationId, userId) in st.memberships
                       && st.memberships[(organizationId, userId)].status == MembershipStatus.Active
    ensures r.Ok? ==> r.value == st.memberships[(organizationId, userId)]
    ensures r.Err? ==> r.error == (if (organizationId, userId) in st.memberships then PermissionError else LookupError)
  {
    var m :- RequireMembership(st, organizationId, userId);
    if m.status != MembershipStatus.Active then Err(PermissionError) else Ok(m)
  }

  /** `_invalidate_entitlements`: always the organization, first; the
      organization's subscription when it has one; the user when given.
      Nothing else. */
  function InvalidationsFor(organization: Organization, userId: string): (calls: seq<Entitlements.Invalidation>)
    ensures |calls| >= 1 && calls[0] == Entitlements.InvalidateOrganization(organization.id)
    ensures Truthy(organization.subscriptionId) ==>
              Entitlements.InvalidateSubscription(organization.subscriptionId.value) in calls
    ensures userId != "" ==> Entitlements.InvalidateUser(userId) in calls
    ensures forall c :: c in calls ==>
              c == Entitlements.InvalidateOrganization(organization.id)
              || (Truthy(organization.subscriptionId) && c == Entitlements.InvalidateSubscription(organization.subscriptionId.value))
              || (userId != "" && c == Entitlements.InvalidateUser(userId))
  {
    [Entitlements.InvalidateOrganization(organization.id)]
    + (if Truthy(organization.subscriptionId)
       then [Entitlements.InvalidateSubscription(organization.subscriptionId.value)] else [])
    + (if userId != "" then [Entitlements.InvalidateUser(userId)] else [])
  }

  /** After the fan-out, no cached entitlement of the organization or of
      the user survives, nor one under the organization's subscription. */
  lemma {:induction false} InvalidationsEvict(cache: EntitlementCache.Cache<EntitlementResult>, organization: Organization, userId: string)
    ensures var after := Entitlements.ApplyInvalidations(cache, InvalidationsFor(organization, userId));
            forall k :: k in after.entries ==>
              OrganizationTag(organization.id) !in after.entries[k].tags
              && (userId != "" ==> UserTag(userId) !in after.entries[k].tags)
              && (Truthy(organization.subscriptionId) ==>
                    SubscriptionTag(organization.subscriptionId.value) !in after.entries[k].tags)
  {
    var calls := InvalidationsFor(organization, userId);
    var after := Entitlements.ApplyInvalidations(cache, calls);
    forall k | k in after.entries
      ensures OrganizationTag(organization.id) !in after.entries[k].tags
      ensures userId != "" ==> UserTag(userId) !in after.entries[k].tags
      ensures Truthy(organization.subscriptionId) ==>
                SubscriptionTag(organization.subscriptionId.value) !in after.entries[k].tags
    {
      assert calls[0].Tag() == OrganizationTag(organization.id);
      if userId != "" {
        var i :| 0 <= i < |calls| && calls[i] == Entitlements.InvalidateUser(userId);
        assert calls[i].Tag() == UserTag(userId);
      }
      if Truthy(organization.subscriptionId) {
        var i :| 0 <= i < |calls| && calls[i] == Entitlements.InvalidateSubscription(organization.subscriptionId.value);
        assert calls[i].Tag() == SubscriptionTag(organization.subscriptionId.value);
      }
    }
  }

  // ---------------------------------------------------------------------
  // Operations

  /** `invite_member`. The organization must exist (LookupError) and the
      inviter must hold an active membership (LookupError, PermissionError)
      whose role may assign the invited role (PermissionError). The expiry
      defaults to `now` plus the invitation lifetime; an expiry that is not
      after `now` fails validation (ValueError). A rejected invite stores
      and logs nothing; an accepted one stores the invitation under its
      token and logs one INVITE event. */
  function InviteMember(config: OrgConfig, st: OrgState, organizationId: string, inviterId: string,
                        email: string, role: MembershipRole, expiresAt: Option<int>, now: int): (r: Step<Invitation>)
    ensures r.result.Err? ==> r.state == st
    ensures organizationId !in st.organizations ==> r.result == Err(LookupError)
    ensures organizationId in st.organizations && (organizationId, inviterId) !in st.memberships
            ==> r.result == Err(LookupError)
    ensures organizationId in st.organizations && (organizationId, inviterId) in st.memberships
            && (st.memberships[(organizationId, inviterId)].status != MembershipStatus.Active
                || !RoleAllowsAssignment(st.memberships[(organizationId, inviterId)].role, role))
            ==> r.result == Err(PermissionError)
    ensures r.result.Ok? <==>
              organizationId in st.organizations && (organizationId, inviterId) in st.memberships
              && st.memberships[(organizationId, inviterId)].status == MembershipStatus.Active
              && RoleAllowsAssignment(st.memberships[(organizationId, inviterId)].role, role)
              && expiresAt.GetOr(now + config.invitationTtl) > now
    ensures r.result.Ok? ==>
              var org := st.organizations[organizationId];
              var inviter := st.memberships[(organizationId, inviterId)];
              var inv := r.result.value;
              inv.Valid() && inv.organizationId == org.id && inv.email == email && inv.role == role
              && inv.inviterId == inviter.userId && inv.createdAt == now
              && inv.expiresAt == expiresAt.GetOr(now + config.invitationTtl)
              && inv.token == config.generate(org.id, email, inv.expiresAt)
              && r.state == st.(invitations := st.invitations[inv.token := inv],
                                audit := st.audit + [MembershipAuditEvent(org.id, inviter.userId, email, Invite,
                                                                          None, None, now, map["role" := role.Value()])])
    ensures Wellformed(st) ==> Wellformed(r.state)
  {
    if organizationId !in st.organizations then Step(Err(LookupError), st)
    else
      var organization := st.organizations[organizationId];
      match RequireActiveMembership(st, organizationId, inviterId)
      case Err(e) => Step(Err(e), st)
      case Ok(inviter) =>
        if !RoleAllowsAssignment(inviter.role, role) then Step(Err(PermissionError), st)
        else
          var expiry := expiresAt.GetOr(now + config.invitationTtl);
          var token := config.generate(organization.id, email, expiry);
          match NewInvitation(token, organization.id, email, role, inviter.userId, now, expiry)
          case Err(e) => Step(Err(e), st)
          case Ok(invitation) =>
            var event := MembershipAuditEvent(organization.id, inviter.userId, email, Invite,
                                              None, None, now, map["role" := role.Value()]);
            Step(Ok(invitation), st.(invitations := st.invitations[token := invitation],
                                     audit := st.audit + [event]))
  }

  /** `accept_invitation`. An unknown token raises LookupError, and so does
      an invitation whose organization is gone; an invitation whose expiry
      is not after `now` raises PermissionError. Otherwise the user gets an
      active membership with the invitation's role, keeping the id of any
      membership they already had, billing administration off; the
      invitation is deleted, one ACCEPT event is logged, entitlements are
      invalidated and one seat event is published. */
  function AcceptInvitation(st: OrgState, token: string, userId: string, now: int): (r: Step<Membership>)
    ensures r.result.Err? ==> r.state == st
    ensures token !in st.invitations ==> r.result == Err(LookupError)
    ensures token in st.invitations && st.invitations[token].organizationId !in st.organizations
            ==> r.result == Err(LookupError)
    ensures token in st.invitations && st.invitations[token].organizationId in st.organizations
            && st.invitations[token].expiresAt <= now
            ==> r.result == Err(PermissionError)
    ensures r.result.Ok? <==>
              token in st.invitations && st.invitations[token].organizationId in st.organizations
              && st.invitations[token].expiresAt > now
    ensures r.result.Ok? ==>
              var inv := st.invitations[token];
              var org := st.organizations[inv.organizationId];
              var key := (inv.organizationId, userId);
              var m := r.result.value;
              m.ConsumesSeat() && m.role == inv.role && m.organizationId == inv.organizationId
              && m.userId == userId && !m.billingAdmin
              && m.invitedBy == Some(inv.inviterId) && m.invitedAt == Some(inv.createdAt)
              && m.acceptedAt == Some(now) && m.revokedAt == None
              && m.id == (if key in st.memberships && st.memberships[key].id.Some?
                          then st.memberships[key].id else Some(NextMembershipId(st)))
              && r.state.memberships == st.memberships[key := m]
              && r.state.invitations == st.invitations - {inv.token}
              && r.state.organizations == st.organizations
              && r.state.audit == st.audit + [MembershipAuditEvent(inv.organizationId, userId, userId, Accept,
                                                                   None, Some(inv.role), now,
                                                                   map["invited_by" := inv.inviterId])]
              && r.state.seatEvents == st.seatEvents + [inv.organizationId]
              && r.state.invalidations == st.invalidations + InvalidationsFor(org, userId)
    ensures Wellformed(st) ==> Wellformed(r.state)
  {
    if token !in st.invitations then Step(Err(LookupError), st)
    else
      var invitation := st.invitations[token];
      if invitation.organizationId !in st.organizations then Step(Err(LookupError), st)
      else
        var organization := st.organizations[invitation.organizationId];
        if invitation.expiresAt <= now then Step(Err(PermissionError), st)
        else
          var key := (invitation.organizationId, userId);
          var existingId := if key in st.memberships then st.memberships[key].id else None;
          var membership := Membership(existingId, invitation.organizationId, userId, invitation.role, MembershipStatus.Active,
                                       false, Some(invitation.inviterId), Some(invitation.createdAt),
                                       Some(now), None);
          var stored := WithId(st, membership);
          var st1 := SaveMembership(st, membership);
          var st2 := st1.(invitations := st1.invitations - {invitation.token});
          var event := MembershipAuditEvent(invitation.organizationId, userId, userId, Accept,
                                            None, Some(stored.role), now,
                                            map["invited_by" := invitation.inviterId]);
          var st3 := st2.(audit := st2.audit + [event],
                          invalidations := st2.invalidations + InvalidationsFor(organization, stored.userId),
                          seatEvents := st2.seatEvents + [invitation.organizationId]);
          Step(Ok(stored), st3)
  }

  /** The checks `remove_member` and `change_role` share: the organization
      exists, the actor holds an active membership and the target holds a
      membership. Answers the actor's and the target's memberships. */
  function RequireActorAndTarget(st: OrgState, organizationId: string, actorId: string, targetUserId: string)
    : (r: Result<(Organization, Membership, Membership)>)
    ensures r.Ok? <==> organizationId in st.organizations
                       && (organizationId, actorId) in st.memberships
                       && st.memberships[(organizationId, actorId)].status == MembershipStatus.Active
                       && (organizationId, targetUserId) in st.memberships
    ensures r.Ok? ==> r.value == (st.organizations[organizationId], st.memberships[(organizationId, actorId)],
                                  st.memberships[(organizationId, targetUserId)])
    ensures r.Err? ==> r.error == (if organizationId in st.organizations && (organizationId, actorId) in st.memberships
                                      && st.memberships[(organizationId, actorId)].status != MembershipStatus.Active
                                   then PermissionError else LookupError)
  {
    if organizationId !in st.organizations then Err(LookupError)
    else
      var actor :- RequireActiveMembership(st, organizationId, actorId);
      var target :- RequireMembership(st, organizationId, targetUserId);
      Ok((st.organizations[organizationId], actor, target))
  }

  /** Whether `remove_member` lets an actor remove a target: an owner can
      only be removed by an owner, and removing someone else needs a
      strictly higher rank. Removing oneself needs neither. */
  predicate MayRemove(actor: Membership, target: Membership, actorId: string, targetUserId: string) {
    !(target.role == Owner && actor.role != Owner)
    && (Rank(actor.role) > Rank(target.role) || actorId == targetUserId)
  }

  /** `remove_member`. After the lookups of `RequireActorAndTarget`, a
      removal `MayRemove` refuses raises PermissionError. Otherwise the
      target's membership is kept but revoked as of `now`, one REMOVE event
      is logged, entitlements are invalidated and one seat event is
      published. */
  function RemoveMember(st: OrgState, organizationId: string, actorId: string, targetUserId: string, now: int)
    : (r: Step<Membership>)
    ensures r.result.Err? ==> r.state == st
    ensures RequireActorAndTarget(st, organizationId, actorId, targetUserId).Err? ==>
              r.result == Err(RequireActorAndTarget(st, organizationId, actorId, targetUserId).error)
    ensures r.result.Ok? <==>
              RequireActorAndTarget(st, organizationId, actorId, targetUserId).Ok?
              && MayRemove(st.memberships[(organizationId, actorId)], st.memberships[(organizationId, targetUserId)],
                           actorId, targetUserId)
    ensures r.result.Err? && RequireActorAndTarget(st, organizationId, actorId, targetUserId).Ok? ==>
              r.result.error == PermissionError
    ensures r.result.Ok? ==>
              var org := st.organizations[organizationId];
              var target := st.memberships[(organizationId, targetUserId)];
              var m := r.result.value;
              m == WithId(st, target.(status := Revoked, revokedAt := Some(now)))
              && !m.ConsumesSeat()
              && r.state.memberships == st.memberships[(target.organizationId, target.userId) := m]
              && r.state.invitations == st.invitations && r.state.organizations == st.organizations
              && r.state.audit == st.audit + [MembershipAuditEvent(organizationId, actorId, targetUserId, Remove,
                                                                   Some(target.role), None, now, map[])]
              && r.state.seatEvents == st.seatEvents + [organizationId]
              && r.state.invalidations == st.invalidations + InvalidationsFor(org, targetUserId)
    ensures Wellformed(st) ==> Wellformed(r.state)
  {
    match RequireActorAndTarget(st, organizationId, actorId, targetUserId)
    case Err(e) => Step(Err(e), st)
    case Ok((organization, actor, target)) =>
      if target.role == Owner && actor.role != Owner then Step(Err(PermissionError), st)
      else if Rank(actor.role) <= Rank(target.role) && actorId != targetUserId then Step(Err(PermissionError), st)
      else
        var updated := target.(status := Revoked, revokedAt := Some(now));
        var stored := WithId(st, updated);
        var st1 := SaveMembership(st, updated);
        var event := MembershipAuditEvent(organizationId, actorId, targetUserId, Remove,
                                          Some(target.role), None, now, map[]);
        Step(Ok(stored), st1.(audit := st1.audit + [event],
                              invalidations := st1.invalidations + InvalidationsFor(organization, targetUserId),
                              seatEvents := st1.seatEvents + [organizationId]))
  }

  /** Whether `change_role` lets an actor give a target a new role: only an
      owner may touch an owner or promote to owner, and otherwise the
      assignment rule applies. */
  predicate MayChangeRole(actor: Membership, target: Membership, newRole: MembershipRole) {
    !(target.role == Owner && actor.role != Owner)
    && !(newRole == Owner && actor.role != Owner)
    && RoleAllowsAssignment(actor.role, newRole)
  }

  /** `change_role`. After the lookups of `RequireActorAndTarget`, a change
      `MayChangeRole` refuses raises PermissionError. Otherwise only the
      target's role changes, one ROLE_CHANGE event is logged and
      entitlements are invalidated; no seat event is published. */
  function ChangeRole(st: OrgState, organizationId: string, actorId: string, targetUserId: string,
                      newRole: MembershipRole, now: int): (r: Step<Membership>)
    ensures r.result.Err? ==> r.state == st
    ensures RequireActorAndTarget(st, organizationId, actorId, targetUserId).Err? ==>
              r.result == Err(RequireActorAndTarget(st, organizationId, actorId, targetUserId).error)
    ensures r.result.Ok? <==>
              RequireActorAndTarget(st, organizationId, actorId, targetUserId).Ok?
              && MayChangeRole(st.memberships[(organizationId, actorId)], st.memberships[(organizationId, targetUserId)],
                               newRole)
    ensures r.result.Err? && RequireActorAndTarget(st, organizationId, actorId, targetUserId).Ok? ==>
              r.result.error == PermissionError
    ensures r.result.Ok? ==>
              var org := st.organizations[organizationId];
              var target := st.memberships[(organizationId, targetUserId)];
              var m := r.result.value;
              m == WithId(st, target.(role := newRole))
              && r.state.memberships == st.memberships[(target.organizationId, target.userId) := m]
              && r.state.invitations == st.invitations && r.state.organizations == st.organizations
              && r.state.audit == st.audit + [MembershipAuditEvent(organizationId, actorId, targetUserId, RoleChange,
                                                                   Some(target.role), Some(newRole), now, map[])]
              && r.state.seatEvents == st.seatEvents
              && r.state.invalidations == st.invalidations + InvalidationsFor(org, targetUserId)
    ensures Wellformed(st) ==> Wellformed(r.state)
  {
    match RequireActorAndTarget(st, organizationId, actorId, targetUserId)
    case Err(e) => Step(Err(e), st)
    case Ok((organization, actor, target)) =>
      if target.role == Owner && actor.role != Owner then Step(Err(PermissionError), st)
      else if newRole == Owner && actor.role != Owner then Step(Err(PermissionError), st)
      else if !RoleAllowsAssignment(actor.role, newRole) then Step(Err(PermissionError), st)
      else
        var updated := target.(role := newRole);
        var stored := WithId(st, updated);
        var st1 := SaveMembership(st, updated);
        var event := MembershipAuditEvent(organizationId, actorId, targetUserId, RoleChange,
                                          Some(target.role), Some(newRole), now, map[]);
        Step(Ok(stored), st1.(audit := st1.audit + [event],
                              invalidations := st1.invalidations + InvalidationsFor(organization, targetUserId)))
  }

  // ---------------------------------------------------------------------
  // Properties

  /** Nobody removes an owner other than themselves: not an admin, and not
      another owner either, because removal needs a strictly higher rank. */
  lemma {:induction false} NoOneRemovesAnotherOwner(st: OrgState, organizationId: string, actorId: string, targetUserId: string, now: int)
    requires (organizationId, targetUserId) in st.memberships
    requires st.memberships[(organizationId, targetUserId)].role == Owner
    requires actorId != targetUserId
    ensures RemoveMember(st, organizationId, actorId, targetUserId, now).result.Err?
    ensures RemoveMember(st, organizationId, actorId, targetUserId, now).state == st
  {
  }

  /** Any active member may leave, whatever their role. */
  lemma {:induction false} MembersMayLeave(st: OrgState, organizationId: string, userId: string, now: int)
    requires organizationId in st.organizations
    requires (organizationId, userId) in st.memberships
    requires st.memberships[(organizationId, userId)].status == MembershipStatus.Active
    ensures RemoveMember(st, organizationId, userId, userId, now).result.Ok?
  {
  }

  /** Only an owner can make an owner, and an admin never changes an
      owner's role. */
  lemma {:induction false} OnlyOwnersMintOwners(st: OrgState, organizationId: string, actorId: string, targetUserId: string,
                             newRole: MembershipRole, now: int)
    requires ChangeRole(st, organizationId, actorId, targetUserId, newRole, now).result.Ok?
    ensures newRole == Owner ==> st.memberships[(organizationId, actorId)].role == Owner
    ensures st.memberships[(organizationId, targetUserId)].role == Owner ==>
              st.memberships[(organizationId, actorId)].role == Owner
    ensures Rank(newRole) <= Rank(st.memberships[(organizationId, actorId)].role)
  {
  }

  /** An invitation can be accepted at the moment it is issued: the
      accepting user ends up with an active, seat-consuming membership of
      the invited role, the invitation is consumed, and the organization
      gets one seat event. */
  lemma {:induction false} InviteThenAccept(config: OrgConfig, st: OrgState, organizationId: string, inviterId: string,
                         email: string, role: MembershipRole, expiresAt: Option<int>, now: int, userId: string)
    requires Wellformed(st)
    requires InviteMember(config, st, organizationId, inviterId, email, role, expiresAt, now).result.Ok?
    ensures var invited := InviteMember(config, st, organizationId, inviterId, email, role, expiresAt, now);
            var accepted := AcceptInvitation(invited.state, invited.result.value.token, userId, now);
            accepted.result.Ok?
            && accepted.result.value.ConsumesSeat()
            && accepted.result.value.role == role
            && (organizationId, userId) in accepted.state.memberships
            && accepted.state.memberships[(organizationId, userId)].ConsumesSeat()
            && invited.result.value.token !in accepted.state.invitations
            && accepted.state.seatEvents == st.seatEvents + [organizationId]
  {
    var invited := InviteMember(config, st, organizationId, inviterId, email, role, expiresAt, now);
    var inv := invited.result.value;
    assert invited.state.invitations[inv.token] == inv;
    assert invited.state.organizations == st.organizations;
  }

  /** Accepting an invitation a second time fails: the first acceptance
      consumed it. */
  lemma {:induction false} AcceptOnce(st: OrgState, token: string, userId: string, now: int, later: int, otherUserId: string)
    requires Wellformed(st)
    requires AcceptInvitation(st, token, userId, now).result.Ok?
    ensures AcceptInvitation(AcceptInvitation(st, token, userId, now).state, token, otherUserId, later).result
            == Err(LookupError)
  {
  }
}
