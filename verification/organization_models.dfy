/** Organizations, their memberships and invitations. As in the Python
    models these are immutable records; a validated constructor answers
    ValueError where pydantic validation fails.
 */
module OrganizationModels {
  import opened Common
  import opened EntitlementModels

  /** Sharing and retention policy stored with an organization. */
  datatype PolicyFlags = PolicyFlags(sharingEnabled: bool, externalExportsAllowed: bool, retentionDays: Option<int>)
  {
    /** A retention period, when one is set, is not negative. */
    predicate Valid() {
      retentionDays.Some? ==> retentionDays.value >= 0
    }
  }

  /** `OrganizationPolicyFlags(...)`: a negative retention period fails
      validation; the other fields have no constraint. */
  function NewPolicyFlags(sharingEnabled: bool, externalExportsAllowed: bool, retentionDays: Option<int>): (r: Result<PolicyFlags>)
    ensures r.Ok? <==> (retentionDays.Some? ==> retentionDays.value >= 0)
    ensures r.Ok? ==> r.value.Valid() && r.value.retentionDays == retentionDays
                      && r.value.sharingEnabled == sharingEnabled
                      && r.value.externalExportsAllowed == externalExportsAllowed
    ensures r.Err? ==> r.error == ValueError
  {
    if retentionDays.Some? && retentionDays.value < 0 then Err(ValueError)
    else Ok(PolicyFlags(sharingEnabled, externalExportsAllowed, retentionDays))
  }

  /** The default policy: sharing on, external exports off, the global
      retention period. */
  const DefaultPolicyFlags: PolicyFlags := PolicyFlags(true, false, None)

  datatype Organization = Organization(
    id: string,
    name: string,
    ownerId: string,
    billingContactId: string,
    subscriptionId: Option<string>,
    policyFlags: PolicyFlags,
    createdAt: int,
    updatedAt: int)

  datatype MembershipStatus = Invited | Active | Suspended | Revoked {
    function Value(): string {
      match this
      case Invited => "invited"
      case Active => "active"
      case Suspended => "suspended"
      case Revoked => "revoked"
    }
  }

  datatype Membership = Membership(
    id: Option<string>,
    organizationId: string,
    userId: string,
    role: MembershipRole,
    status: MembershipStatus,
    billingAdmin: bool,
    invitedBy: Option<string>,
    invitedAt: Option<int>,
    acceptedAt: Option<int>,
    revokedAt: Option<int>)
  {
    /** Only an active membership counts against the seat allocation. */
    predicate ConsumesSeat() {
      status == MembershipStatus.Active
    }
  }

  /** `OrganizationMembership(id=..., organization_id=..., user_id=...)`
      with every other field at its declared default. */
  function NewMembership(id: Option<string>, organizationId: string, userId: string): (m: Membership)
    ensures m.role == Member && m.status == MembershipStatus.Active && !m.billingAdmin
    ensures m.ConsumesSeat()
    ensures m.id == id && m.organizationId == organizationId && m.userId == userId
    ensures m.invitedBy.None? && m.invitedAt.None? && m.acceptedAt.None? && m.revokedAt.None?
  {
    Membership(id, organizationId, userId, Member, MembershipStatus.Active, false, None, None, None, None)
  }

  datatype Invitation = Invitation(
    token: string,
    organizationId: string,
    email: string,
    role: MembershipRole,
    inviterId: string,
    createdAt: int,
    expiresAt: int)
  {
    /** An invitation expires strictly after it was created. */
    predicate Valid() {
      expiresAt > createdAt
    }
  }

  /** `MembershipInvitation(...)`: an expiry at or before the creation time
      fails validation. */
  function NewInvitation(token: string, organizationId: string, email: string, role: MembershipRole,
                         inviterId: string, createdAt: int, expiresAt: int): (r: Result<Invitation>)
    ensures r.Ok? <==> expiresAt > createdAt
    ensures r.Ok? ==> r.value.Valid()
                      && r.value == Invitation(token, organizationId, email, role, inviterId, createdAt, expiresAt)
    ensures r.Err? ==> r.error == ValueError
  {
    if expiresAt <= createdAt then Err(ValueError)
    else Ok(Invitation(token, organizationId, email, role, inviterId, createdAt, expiresAt))
  }

  datatype AuditAction = Invite | Accept | Remove | RoleChange | TransferRequest | TransferComplete {
    function Value(): string {
      match this
      case Invite => "invite"
      case Accept => "accept"
      case Remove => "remove"
      case RoleChange => "role_change"
      case TransferRequest => "transfer_request"
      case TransferComplete => "transfer_complete"
    }
  }

  datatype MembershipAuditEvent = MembershipAuditEvent(
    organizationId: string,
    actorId: string,
    subjectId: string,
    action: AuditAction,
    roleBefore: Option<MembershipRole>,
    roleAfter: Option<MembershipRole>,
    timestamp: int,
    metadata: map<string, string>)
}
