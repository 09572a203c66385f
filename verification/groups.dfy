/** The decision logic of the group routes: which privacy states and roles
    a request may name, who may see a group, and how creating a group,
    removing a member, joining and accepting an invite change the stored
    groups, memberships and invites.

    The tables are maps keyed as the database keys them. Each route answers
    a `Result` (an HTTPException becomes `Http(status)`) together with the
    state it leaves behind, since accepting an expired invite persists the
    expiry before it fails.
 */
module GroupRoutes {
  import opened Common
  import opened Text
  import opened GroupService
  import opened GroupFilters

  datatype Group = Group(
    id: int,
    slug: string,
    name: string,
    description: Option<string>,
    privacyState: string,
    inviteOnly: bool,
    createdBy: Option<int>)

  datatype GroupInvite = GroupInvite(
    id: int,
    groupId: int,
    invitedBy: int,
    invitedUserId: Option<int>,
    invitedEmail: Option<string>,
    status: string,
    expires: Option<int>,
    acceptedAt: Option<int>)

  /** The rows the routes read and write: groups by id, membership roles by
      (group, user), invites by code, and each user's stored email. */
  datatype GroupDb = GroupDb(
    groups: map<int, Group>,
    memberships: map<(int, int), string>,
    invites: map<string, GroupInvite>,
    emails: map<int, Option<string>>)

  datatype Step<T> = Step(result: Result<T>, db: GroupDb)

  /** The role both join routes insert. It is not one of the group roles. */
  const JoinedRole: string := "viewer"

  /** `_normalize_privacy_state`: a missing or empty value means public;
      otherwise the trimmed, lower-cased value must be a privacy state. */
  function NormalizePrivacyState(value: Option<string>): (r: Result<string>)
    ensures !Truthy(value) ==> r == Ok("public")
    ensures Truthy(value) ==> (r.Ok? <==> StripLower(value.value) in GroupPrivacyValues)
    ensures r.Ok? ==> r.value in GroupPrivacyValues
    ensures r.Ok? && Truthy(value) ==> r.value == StripLower(value.value)
    ensures r.Err? ==> r.error == Http(400)
  {
    var normalized := if Truthy(value) then StripLower(value.value) else StripLower("public");
    KnownValuesNormalized("public");
    if normalized !in GroupPrivacyValues then Err(Http(400)) else Ok(normalized)
  }

  /** A normalized privacy state normalizes to itself. */
  lemma {:induction false} PrivacyStateIdempotent(value: Option<string>)
    requires NormalizePrivacyState(value).Ok?
    ensures NormalizePrivacyState(Some(NormalizePrivacyState(value).value)) == NormalizePrivacyState(value)
  {
    KnownValuesNormalized(NormalizePrivacyState(value).value);
  }

  /** `_validate_role`: the trimmed, lower-cased role must be a group role. */
  function ValidateRole(role: string): (r: Result<string>)
    ensures r.Ok? <==> StripLower(role) in GroupRoleValues
    ensures r.Ok? ==> r.value == StripLower(role) && RolePriority(Some(r.value)) > 0
    ensures r.Err? ==> r.error == Http(400)
  {
    var normalized := StripLower(role);
    if normalized !in GroupRoleValues then Err(Http(400)) else Ok(normalized)
  }

  /** A validated role validates to itself. */
  lemma {:induction false} ValidateRoleIdempotent(role: string)
    requires ValidateRole(role).Ok?
    ensures ValidateRole(ValidateRole(role).value) == ValidateRole(role)
  {
    KnownValuesNormalized(ValidateRole(role).value);
  }

  /** `_ensure_group_visibility`: a site moderator, any member, or the
      signed-in creator (with a non-zero id) may see the group; everyone
      else gets 403. */
  function EnsureGroupVisibility(group: Group, viewer: Option<Viewer>, membership: Option<string>): (r: Result<()>)
    ensures r.Ok? <==> (viewer.Some? && IsSiteModerator(viewer.value.siteRole))
                       || membership.Some?
                       || (viewer.Some? && viewer.value.id != 0 && group.createdBy == Some(viewer.value.id))
    ensures r.Err? ==> r.error == Http(403)
  {
    if viewer.Some? && IsSiteModerator(viewer.value.siteRole) then Ok(())
    else if membership.Some? then Ok(())
    else
      var viewerId := if viewer.Some? then Some(viewer.value.id) else None;
      if TruthyInt(viewerId) && group.createdBy == viewerId then Ok(())
      else Err(Http(403))
  }

  /** Anonymous viewers see a group only through a membership, which they
      cannot hold; so an anonymous request is always refused. */
  lemma {:induction false} AnonymousNeedsMembership(group: Group)
    ensures EnsureGroupVisibility(group, None, None) == Err(Http(403))
    ensures forall role :: EnsureGroupVisibility(group, None, Some(role)).Ok?
  {
  }

  /** What `list_groups` does with a request before the count and page
      queries: nothing at all when no state is left to list, else a query
      over the listed states, with the optional search pattern and the row
      offset of the page. */
  datatype ListPlan =
    | EmptyPage
    | Query(states: seq<string>, pattern: Option<string>, offset: int)

  /** The `LIKE` pattern for a search: the trimmed text lower-cased and
      wrapped in `%`, or none when the trimmed text is empty. */
  function SearchPattern(q: Option<string>): (p: Option<string>)
    ensures q.None? ==> p.None?
    ensures q.Some? ==> (p.Some? <==> Strip(q.value) != "")
    ensures p.Some? ==> |p.value| >= 3 && p.value[0] == '%' && p.value[|p.value| - 1] == '%'
  {
    var search := Strip(q.GetOr(""));
    if search == "" then None else Some("%" + Lower(search) + "%")
  }

  /** `list_groups` up to its queries. */
  function PlanListing(visibility: VisibilityParam, viewer: Option<Viewer>, q: Option<string>, limit: int, page: int): (r: Result<ListPlan>)
    requires 1 <= limit <= 100 && page >= 1
    ensures r.Err? <==> NormalizedVisibility(visibility).Err?
    ensures r.Ok? ==> (r.value.EmptyPage? <==> ListedStates(visibility, viewer).value == [])
    ensures r.Ok? && r.value.Query? ==> r.value.states == ListedStates(visibility, viewer).value
                                        && r.value.offset == (page - 1) * limit && r.value.offset >= 0
                                        && r.value.pattern == SearchPattern(q)
  {
    var states :- ListedStates(visibility, viewer);
    if states == [] then Ok(EmptyPage)
    else Ok(Query(states, SearchPattern(q), (page - 1) * limit))
  }

  /** A listing never queries private groups for a viewer who is not a
      site moderator. */
  lemma {:induction false} NoPrivateForOrdinaryViewers(visibility: VisibilityParam, viewer: Option<Viewer>, q: Option<string>, limit: int, page: int)
    requires 1 <= limit <= 100 && page >= 1
    requires viewer.None? || !IsSiteModerator(viewer.value.siteRole)
    ensures PlanListing(visibility, viewer, q, limit, page).Ok? && PlanListing(visibility, viewer, q, limit, page).value.Query?
            ==> "private" !in PlanListing(visibility, viewer, q, limit, page).value.states
  {
  }

  /** A new group as submitted. */
  datatype GroupCreate = GroupCreate(slug: string, name: string, description: Option<string>,
                                     privacyState: Option<string>, inviteOnly: bool)

  /** Slugs are unique across groups, as the table's unique constraint
      keeps them. */
  predicate SlugsUnique(db: GroupDb) {
    forall a, b :: a in db.groups && b in db.groups && a != b ==> db.groups[a].slug != db.groups[b].slug
  }

  /** The groups table is keyed by each group's id. */
  predicate GroupsKeyed(db: GroupDb) {
    forall id :: id in db.groups ==> db.groups[id].id == id
  }

  predicate SlugTaken(db: GroupDb, slug: string) {
    exists id :: id in db.groups && db.groups[id].slug == slug
  }

  /** The two inserts of `create_group` once its checks pass: the group
      row, then the creator's owner membership unless that key is taken. */
  function InsertGroup(db: GroupDb, g: Group, creatorId: int): (r: GroupDb)
    requires g.id !in db.groups && !SlugTaken(db, g.slug)
    ensures r.groups == db.groups[g.id := g]
    ensures (g.id, creatorId) in r.memberships
    ensures (g.id, creatorId) !in db.memberships ==> r.memberships == db.memberships[(g.id, creatorId) := "owner"]
    ensures (g.id, creatorId) in db.memberships ==> r.memberships == db.memberships
    ensures r.invites == db.invites && r.emails == db.emails
    ensures SlugsUnique(db) ==> SlugsUnique(r)
    ensures GroupsKeyed(db) ==> GroupsKeyed(r)
  {
    var key := (g.id, creatorId);
    var memberships := if key in db.memberships then db.memberships else db.memberships[key := "owner"];
    db.(groups := db.groups[g.id := g], memberships := memberships)
  }

  /** The field constraints of the request body, checked on the stripped
      values before the route runs: a slug of 3 to 80 characters and a name
      of 1 to 255. */
  predicate ValidGroupCreate(payload: GroupCreate) {
    3 <= |Strip(payload.slug)| <= 80 && 1 <= |Strip(payload.name)| <= 255
  }

  /** `create_group`: a body whose slug or name breaks the field
      constraints is a 422 before the route runs; the route normalizes the
      fields (a bad privacy state is a 400 before anything is stored),
      refuses a slug already in use with 400, stores the group under the id
      the database hands out, and makes the creator an owner unless they
      already hold a membership of that id. */
  function CreateGroup(db: GroupDb, actor: Viewer, payload: GroupCreate, newId: int): (r: Step<Group>)
    requires newId !in db.groups
    ensures !ValidGroupCreate(payload) ==> r == Step(Err(Http(422)), db)
    ensures r.result.Err? ==> r.db == db
    ensures r.result.Err? && ValidGroupCreate(payload) ==> r.result.error == Http(400)
    ensures r.result.Err? <==> || !ValidGroupCreate(payload)
                               || NormalizePrivacyState(payload.privacyState).Err?
                               || SlugTaken(db, StripLower(payload.slug))
    ensures r.result.Ok? ==>
              var g := r.result.value;
              && g.id == newId && g.slug == StripLower(payload.slug) && g.name == Strip(payload.name)
              && g.privacyState == NormalizePrivacyState(payload.privacyState).value
              && g.inviteOnly == payload.inviteOnly && g.createdBy == Some(actor.id)
              && (g.description.Some? <==> Truthy(payload.description))
              && r.db == InsertGroup(db, g, actor.id)
  {
    var slug := StripLower(payload.slug);
    var description := if Truthy(payload.description) then Some(Strip(payload.description.value)) else None;
    var privacy := NormalizePrivacyState(payload.privacyState);
    if !ValidGroupCreate(payload) then Step(Err(Http(422)), db)
    else if privacy.Err? then Step(Err(privacy.error), db)
    else if SlugTaken(db, slug) then Step(Err(Http(400)), db)
    else
      var g := Group(newId, slug, Strip(payload.name), description, privacy.value, payload.inviteOnly, Some(actor.id));
      Step(Ok(g), InsertGroup(db, g, actor.id))
  }

  /** Creating a group keeps slugs unique and makes the creator an owner
      of a fresh group. */
  lemma {:induction false} CreateGroupKeepsSlugsUnique(db: GroupDb, actor: Viewer, payload: GroupCreate, newId: int)
    requires newId !in db.groups && SlugsUnique(db)
    ensures SlugsUnique(CreateGroup(db, actor, payload, newId).db)
    ensures CreateGroup(db, actor, payload, newId).result.Ok? && (newId, actor.id) !in db.memberships
            ==> CreateGroup(db, actor, payload, newId).db.memberships[(newId, actor.id)] == "owner"
  {
  }

  /** The number of owners of a group. */
  function OwnerCount(db: GroupDb, groupId: int): nat {
    |set k | k in db.memberships && k.0 == groupId && db.memberships[k] == "owner"|
  }

  /** `remove_group_member`: 404 for an unknown group; removing someone who
      is not a member succeeds and changes nothing, whoever asks; otherwise
      the actor must be allowed to manage the target (403), and the last
      owner cannot be removed (400). */
  function RemoveGroupMember(db: GroupDb, groupId: int, actor: Viewer, userId: int): (r: Step<()>)
    ensures r.result.Err? ==> r.db == db
    ensures groupId !in db.groups ==> r.result == Err(Http(404))
    ensures groupId in db.groups && (groupId, userId) !in db.memberships ==> r == Step(Ok(()), db)
    ensures r.result == Err(Http(403)) <==>
              groupId in db.groups && (groupId, userId) in db.memberships
              && !CanManageMembership(actor.siteRole, Lookup(db, groupId, actor.id), Some(db.memberships[(groupId, userId)]), None)
    ensures r.result.Ok? ==> r.db == db.(memberships := db.memberships - {(groupId, userId)})
    ensures r.result.Ok? && (groupId, userId) in db.memberships && db.memberships[(groupId, userId)] == "owner"
            ==> OwnerCount(db, groupId) >= 2
  {
    if groupId !in db.groups then Step(Err(Http(404)), db)
    else
      var key := (groupId, userId);
      if key !in db.memberships then
        assert db.memberships - {key} == db.memberships;
        Step(Ok(()), db)
      else
        var targetRole := db.memberships[key];
        if !CanManageMembership(actor.siteRole, Lookup(db, groupId, actor.id), Some(targetRole), None) then Step(Err(Http(403)), db)
        else if targetRole == "owner" && OwnerCount(db, groupId) <= 1 then Step(Err(Http(400)), db)
        else Step(Ok(()), db.(memberships := db.memberships - {key}))
  }

  /** The role a user holds in a group, if any. */
  function Lookup(db: GroupDb, groupId: int, userId: int): (role: Option<string>)
    ensures role.Some? <==> (groupId, userId) in db.memberships
    ensures role.Some? ==> role.value == db.memberships[(groupId, userId)]
  {
    if (groupId, userId) in db.memberships then Some(db.memberships[(groupId, userId)]) else None
  }

  /** Removing one owner of a group with `n` owners leaves `n - 1`. */
  lemma {:induction false} RemoveOwnerCount(db: GroupDb, groupId: int, userId: int)
    requires (groupId, userId) in db.memberships && db.memberships[(groupId, userId)] == "owner"
    ensures OwnerCount(db.(memberships := db.memberships - {(groupId, userId)}), groupId) == OwnerCount(db, groupId) - 1
  {
    var after := db.(memberships := db.memberships - {(groupId, userId)});
    var before := set k | k in db.memberships && k.0 == groupId && db.memberships[k] == "owner";
    var rest := set k | k in after.memberships && k.0 == groupId && after.memberships[k] == "owner";
    assert rest == before - {(groupId, userId)};
  }

  /** A group that has an owner keeps one through any removal. */
  lemma {:induction false} OwnersSurviveRemoval(db: GroupDb, groupId: int, actor: Viewer, userId: int)
    requires OwnerCount(db, groupId) >= 1
    ensures OwnerCount(RemoveGroupMember(db, groupId, actor, userId).db, groupId) >= 1
  {
    var r := RemoveGroupMember(db, groupId, actor, userId);
    if r.result.Ok? && (groupId, userId) in db.memberships {
      if db.memberships[(groupId, userId)] == "owner" {
        RemoveOwnerCount(db, groupId, userId);
      } else {
        var before := set k | k in db.memberships && k.0 == groupId && db.memberships[k] == "owner";
        var rest := set k | k in r.db.memberships && k.0 == groupId && r.db.memberships[k] == "owner";
        assert rest == before;
      }
    }
  }

  /** `join_group`: 404 for an unknown group; an existing membership is
      answered unchanged; an invite-only group refuses with 403; anyone
      else joins with the "viewer" role. The answer is the caller's role. */
  function JoinGroup(db: GroupDb, groupId: int, actor: Viewer): (r: Step<string>)
    ensures r.result.Err? ==> r.db == db
    ensures groupId !in db.groups ==> r.result == Err(Http(404))
    ensures groupId in db.groups && (groupId, actor.id) in db.memberships
            ==> r == Step(Ok(db.memberships[(groupId, actor.id)]), db)
    ensures r.result == Err(Http(403)) <==>
              groupId in db.groups && (groupId, actor.id) !in db.memberships && db.groups[groupId].inviteOnly
    ensures r.result.Ok? ==> r.db.memberships == db.memberships[(groupId, actor.id) := r.result.value]
                             && r.db.groups == db.groups && r.db.invites == db.invites
  {
    if groupId !in db.groups then Step(Err(Http(404)), db)
    else
      var key := (groupId, actor.id);
      if key in db.memberships then
        assert db.memberships[key := db.memberships[key]] == db.memberships;
        Step(Ok(db.memberships[key]), db)
      else if db.groups[groupId].inviteOnly then Step(Err(Http(403)), db)
      else Step(Ok(JoinedRole), db.(memberships := db.memberships[key := JoinedRole]))
  }

  /** Joining twice is joining once: the second call finds the membership
      and answers the same role without changing anything. */
  lemma {:induction false} JoinIdempotent(db: GroupDb, groupId: int, actor: Viewer)
    requires JoinGroup(db, groupId, actor).result.Ok?
    ensures var once := JoinGroup(db, groupId, actor);
            JoinGroup(once.db, groupId, actor) == once
  {
  }

  /** A user who joins by themselves holds no group role: "viewer" has no
      priority and lets its holder manage nothing. */
  lemma {:induction false} JoinedRoleIsNotAGroupRole(siteRole: Option<string>, target: Option<string>, desired: Option<string>)
    ensures JoinedRole !in GroupRoleValues && RolePriority(Some(JoinedRole)) == 0
    ensures !IsSiteModerator(siteRole) ==> !CanManageMembership(siteRole, Some(JoinedRole), target, desired)
  {
  }

  /** `_get_user_email`: the stored email lower-cased, or None when the
      user or their email is missing or empty. */
  function UserEmail(db: GroupDb, userId: int): (e: Option<string>)
    ensures e.Some? <==> userId in db.emails && Truthy(db.emails[userId])
    ensures e.Some? ==> e.value == Lower(db.emails[userId].value)
  {
    if userId !in db.emails then None
    else
      var email := db.emails[userId];
      if Truthy(email) then Some(Lower(email.value)) else None
  }

  /** Why an invite addressed to someone else is refused: to another user
      unless the caller is a site admin, or to another address. */
  predicate WrongInvitee(db: GroupDb, invite: GroupInvite, actor: Viewer) {
    (TruthyInt(invite.invitedUserId) && invite.invitedUserId.value != actor.id && !IsSiteAdmin(actor.siteRole))
    || (Truthy(invite.invitedEmail) && UserEmail(db, actor.id) != Some(Lower(invite.invitedEmail.value)))
  }

  /** `accept_group_invite`, in order: 404 for an unknown code; 400 when
      the invite is not pending; 400 when it expired strictly before `now`,
      after marking it expired; 403 for the wrong invitee. Otherwise the
      caller joins the group as "viewer" unless already a member, the invite
      becomes accepted and keeps any user it named, or names the caller
      when it named none, and the answer is the caller's role. */
  function AcceptGroupInvite(db: GroupDb, code: string, actor: Viewer, now: int): (r: Step<string>)
    ensures code !in db.invites ==> r == Step(Err(Http(404)), db)
    ensures code in db.invites && db.invites[code].status != "pending" ==> r == Step(Err(Http(400)), db)
    ensures code in db.invites && db.invites[code].status == "pending"
            && db.invites[code].expires.Some? && db.invites[code].expires.value < now
            ==> r.result == Err(Http(400))
                && r.db == db.(invites := db.invites[code := db.invites[code].(status := "expired")])
    ensures r.result == Err(Http(403)) ==> r.db == db
    ensures r.result.Ok? ==>
              var invite := db.invites[code];
              var key := (invite.groupId, actor.id);
              && code in db.invites && invite.status == "pending"
              && !(invite.expires.Some? && invite.expires.value < now)
              && !WrongInvitee(db, invite, actor)
              && r.db.memberships == (if key in db.memberships then db.memberships else db.memberships[key := JoinedRole])
              && r.result.value == r.db.memberships[key]
              && r.db.invites == db.invites[code := invite.(status := "accepted", acceptedAt := Some(now),
                                                            invitedUserId := Some(invite.invitedUserId.GetOr(actor.id)))]
              && r.db.groups == db.groups && r.db.emails == db.emails
  {
    if code !in db.invites then Step(Err(Http(404)), db)
    else
      var invite := db.invites[code];
      if invite.status != "pending" then Step(Err(Http(400)), db)
      else if invite.expires.Some? && invite.expires.value < now then
        Step(Err(Http(400)), db.(invites := db.invites[code := invite.(status := "expired")]))
      else if TruthyInt(invite.invitedUserId) && invite.invitedUserId.value != actor.id && !IsSiteAdmin(actor.siteRole) then
        Step(Err(Http(403)), db)
      else if Truthy(invite.invitedEmail) && UserEmail(db, actor.id) != Some(Lower(invite.invitedEmail.value)) then
        Step(Err(Http(403)), db)
      else
        var key := (invite.groupId, actor.id);
        var memberships := if key in db.memberships then db.memberships else db.memberships[key := JoinedRole];
        var accepted := invite.(status := "accepted", acceptedAt := Some(now),
                                invitedUserId := Some(invite.invitedUserId.GetOr(actor.id)));
        Step(Ok(memberships[key]), db.(memberships := memberships, invites := db.invites[code := accepted]))
  }

  /** An invite is used once: after a successful acceptance, or after it
      was found expired, accepting the same code again is a 400 that
      changes nothing. */
  lemma {:induction false} InviteUsedOnce(db: GroupDb, code: string, actor: Viewer, other: Viewer, now: int, later: int)
    requires AcceptGroupInvite(db, code, actor, now).result.Ok?
             || (AcceptGroupInvite(db, code, actor, now).result == Err(Http(400)) && code in db.invites
                 && db.invites[code].status == "pending")
    ensures var after := AcceptGroupInvite(db, code, actor, now).db;
            AcceptGroupInvite(after, code, other, later) == Step(Err(Http(400)), after)
  {
  }

  /** An invite is still good at the very instant it expires, unlike an
      organization invitation, which lapses once `now` reaches its
      expiry. */
  lemma {:induction false} InviteGoodAtExpiry(db: GroupDb, code: string, actor: Viewer)
    requires code in db.invites && db.invites[code].status == "pending"
    requires db.invites[code].expires.Some?
    requires !WrongInvitee(db, db.invites[code], actor)
    ensures AcceptGroupInvite(db, code, actor, db.invites[code].expires.value).result.Ok?
  {
  }

  /** After a successful acceptance the caller is a member of the group. */
  lemma {:induction false} AcceptedCallerIsMember(db: GroupDb, code: string, actor: Viewer, now: int)
    requires AcceptGroupInvite(db, code, actor, now).result.Ok?
    ensures (db.invites[code].groupId, actor.id) in AcceptGroupInvite(db, code, actor, now).db.memberships
  {
  }
}
